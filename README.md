# Quest progression, rewards and page rules — a Dafny model

This project models the logic inside the React single-page app "quest blitz go":
the user-progression store (experience points, levels of 1000 XP, completed
quests), the reward catalog with its eligibility rules and claimed list, the
task checklist of a quest page, invitation answers and the pending-invitation
view, like toggling in the community feed, the search/filter of the venue
browser, and the validation and record of a venue booking. Everything the
app renders is left aside; what remains is integer arithmetic, one state
record and a handful of list and array updates.

Modules, one per source file:

- `Progression` — src/contexts/UserContext.tsx. `UserStats` is the record the
  provider keeps; the class `UserProvider` holds it and its methods `AddXP`
  and `CompleteQuest` replace it as the source's updater functions do. The
  pure functions `AddXPTo` and `CompleteQuestOn` specify them; `Run` applies a
  sequence of calls for the lemmas about several calls.
- `Rewards` — src/components/RewardSystem.tsx. The five-entry catalog, the
  availability predicate, the three rendered views, the next-reward scan and
  the class `RewardSystem` holding the claimed ids.
- `QuestDetails` — src/pages/QuestDetails.tsx. The class `QuestSession` keeps
  the `completedTasks` array and the `questCompleted` flag.
- `GroupEvents` — src/components/GroupEvents.tsx. `Respond` is the update of
  the invitation list; `GroupEventsBoard` holds the state.
- `CommunityFeed` — src/components/CommunityFeed.tsx. `ToggleLike` and the
  class `Feed` with its `likedPosts` list.
- `LocationBrowser` — src/components/LocationBrowser.tsx. Search and type
  filter, amenity truncation.
- `LocationBooking` — src/pages/LocationBooking.tsx. Lookup by id, group-size
  parsing, total price, the required-field guard and the booking record.
- `Seqs` and `Wrappers` — the JavaScript built-ins the components use
  (`Array.prototype.filter` as `Filter`, the scan of `find` as `FirstIndex`)
  and the `Option`/`Result` types.

Two facts about the progression store shape the model:

- `addXP` (src/contexts/UserContext.tsx:54-73) does not check the sign of
  `amount`. So `AddXP` accepts any integer, and a negative amount lowers xp
  and possibly the level.
- The initial record (src/contexts/UserContext.tsx:35-43) stores level 7 at
  2450 XP, where `calculateLevel` gives 3. Its xpToNext of 550 is the value
  the store derives at level 3, so only the level field is off. The first
  `addXP` brings the record in line (`AddXPTo` ensures it), and
  `InitialLevelDrops` shows that the level falls from 7 after a small award.

## Model

| member | source | states |
|---|---|---|
| Progression.CalculateLevel | src/contexts/UserContext.tsx:45-47 | the level is the unique L with (L-1)*1000 <= xp < L*1000, and it is at least 1 for xp >= 0 |
| Progression.XPToNextBounds | src/contexts/UserContext.tsx:49-52 | for every xp, xpToNext at the derived level equals 1000 - xp mod 1000 and lies in 1..1000 |
| Progression.AddXPTo | src/contexts/UserContext.tsx:54-65 | the stored record has xp = old xp + amount, satisfies the level/xpToNext invariant, and keeps every other field |
| Progression.CompleteQuestOn | src/contexts/UserContext.tsx:75-80 | completedQuests grows by exactly 1 and no other field changes |
| Progression.UserProvider.constructor | src/contexts/UserContext.tsx:35-43 | the provider starts from the literal initial record |
| Progression.UserProvider.AddXP | src/contexts/UserContext.tsx:54-73 | the new state is AddXPTo(old state, amount), it satisfies the invariant, and the returned level-up flag is exactly "recomputed level > stored level" |
| Progression.UserProvider.CompleteQuest | src/contexts/UserContext.tsx:75-80 | the new state is the old one with completedQuests + 1 |
| Progression.InitialInconsistent | src/contexts/UserContext.tsx:35-43 | the initial record breaks the invariant through its level alone: 2450 XP is level 3, not the stored 7, while the stored xpToNext 550 is exactly what the store derives at level 3 |
| Progression.InitialLevelDrops | src/contexts/UserContext.tsx:35-58 | from the initial record any award 0 <= amount < 3550 lowers the level below 7 and raises no level-up flag |
| Progression.LevelUpIffNewBand | src/contexts/UserContext.tsx:57-58 | from a consistent record the level-up flag is set iff (xp + amount) div 1000 > xp div 1000 |
| Progression.AddXPMonotone | src/contexts/UserContext.tsx:56-57 | a non-negative award never lowers xp, and from a consistent record never lowers the level |
| Progression.CompleteQuestPreservesConsistency | src/contexts/UserContext.tsx:75-80 | completeQuest keeps the level/xpToNext invariant |
| Progression.RunTotals | src/contexts/UserContext.tsx:54-80 | after any interleaving of calls, completedQuests grew by the number of completeQuest calls and xp by the sum of awards; locations visited, achievements and rank are unchanged |
| Progression.RunConsistent | src/contexts/UserContext.tsx:54-80 | the invariant holds after a sequence of calls if it held before or if the sequence contains an addXP |
| Progression.RunMonotone | src/contexts/UserContext.tsx:54-80 | from a consistent record, calls with non-negative awards never lower xp, level or the quest count |
| Rewards.CatalogWellFormed | src/components/RewardSystem.tsx:31-97 | both thresholds strictly increase down the catalog and the ids are distinct |
| Rewards.AvailabilityMonotone | src/components/RewardSystem.tsx:43-95 | more XP or more quests never lock an available reward again |
| Rewards.AvailableIsPrefix | src/components/RewardSystem.tsx:39-95 | with increasing thresholds, entry i is available iff i < AvailableCount, and with nothing claimed the available view is exactly that catalog prefix |
| Rewards.ViewsPartition | src/components/RewardSystem.tsx:152-213 | each view holds exactly the catalog entries its condition selects; every catalog entry is in exactly one of available, claimed and locked; the claim button only appears for available unclaimed rewards |
| Rewards.GetNextReward | src/components/RewardSystem.tsx:103-105 | the result is the first catalog entry, in declaration order, that is neither available nor claimed; none exists when the result is None |
| Rewards.NextRewardHeadsLockedView | src/components/RewardSystem.tsx:103-105 | the next reward exists iff the locked view (line 213) is non-empty, and it is that view's first entry |
| Rewards.ClaimMovesReward | src/components/RewardSystem.tsx:99-101 | claiming an available reward moves it from the available view to the claimed view and leaves the locked view unchanged |
| Rewards.ProfileRewards | src/components/RewardSystem.tsx:31-105 | with 2450 XP and 23 quests, as the profile page passes them, the available rewards are the first four (welcome to master) and the next reward is legend |
| Rewards.WelcomeThreshold | src/components/RewardSystem.tsx:39-43 | the welcome reward is available at 100 XP and 1 quest and locked at 99 XP and 1 quest |
| Rewards.RewardSystem.constructor | src/components/RewardSystem.tsx:28-29 | the claimed list starts empty and the props are kept |
| Rewards.RewardSystem.ClaimReward | src/components/RewardSystem.tsx:99-101 | the claimed list becomes the old list with exactly the given id appended |
| QuestDetails.CountDone | src/pages/QuestDetails.tsx:42 | the number of done tasks never exceeds the number of tasks |
| QuestDetails.CountDoneFull | src/pages/QuestDetails.tsx:58 | the done count equals the number of tasks iff every task is done |
| QuestDetails.CountDoneNone | src/pages/QuestDetails.tsx:28-30 | the initial all-false checklist has done count 0 |
| QuestDetails.FlipCount | src/pages/QuestDetails.tsx:34-39 | toggling one task changes the done count by exactly one, down if it was done and up otherwise |
| QuestDetails.FlipTwice | src/pages/QuestDetails.tsx:37-38 | toggling the same task twice restores the checklist |
| QuestDetails.QuestSession.constructor | src/pages/QuestDetails.tsx:28-31 | the checklist has one entry per task, all false, and the quest is not completed |
| QuestDetails.QuestSession.ToggleTask | src/pages/QuestDetails.tsx:34-40 | while the quest is open exactly entry index is negated and the length is kept; once completed nothing changes |
| QuestDetails.QuestSession.DoneCount | src/pages/QuestDetails.tsx:117 | the shown count lies between 0 and the number of tasks |
| QuestDetails.QuestSession.CompleteQuest | src/pages/QuestDetails.tsx:44-47 | the quest becomes completed, the XP reported to onComplete is exactly quest.xp, and the checklist is untouched |
| QuestDetails.CompleteOfferedIffAllCounted | src/pages/QuestDetails.tsx:159 | the complete button is shown iff the done count equals the number of tasks and the quest is open (at once for a quest without tasks) |
| GroupEvents.Respond | src/components/GroupEvents.tsx:74-82 | same length and order; entries with the given id get the new status, all other entries are unchanged |
| GroupEvents.RespondUnknownId | src/components/GroupEvents.tsx:76-80 | an id that matches no invitation leaves the list unchanged |
| GroupEvents.RespondIdempotent | src/components/GroupEvents.tsx:78 | giving the same answer twice equals giving it once |
| GroupEvents.RespondLeavesPending | src/components/GroupEvents.tsx:130-131 | after an answer the pending view is the old pending view without the answered id, in the same order |
| GroupEvents.AnsweredNotPending | src/components/GroupEvents.tsx:121 | after an answer no invitation with that id is pending |
| GroupEvents.ParticipantCount | src/components/GroupEvents.tsx:195 | the count shown is the size of the roster of organiser plus participants, so at least 1 |
| GroupEvents.GroupEventsBoard.constructor | src/components/GroupEvents.tsx:33-70 | the board starts with exactly the two literal events and the one literal invitation |
| GroupEvents.AnswerInitialInvitation | src/components/GroupEvents.tsx:60-82 | the initial invitation is pending, and answering it either way records the answer and empties the pending list |
| GroupEvents.GroupEventsBoard.HandleInvitationResponse | src/components/GroupEvents.tsx:74-82 | the invitation list becomes Respond(old list, id, answer); the events are unchanged |
| CommunityFeed.ToggleLike | src/components/CommunityFeed.tsx:99-105 | the post id is liked afterwards iff it was not liked before; every other id keeps its membership |
| CommunityFeed.ToggleKeepsNoDuplicates | src/components/CommunityFeed.tsx:101-103 | a liked list without duplicates stays without duplicates |
| CommunityFeed.ToggleTwice | src/components/CommunityFeed.tsx:99-105 | two toggles restore every id's membership, and the exact list when the id was not liked before |
| CommunityFeed.ToggleMovesCountByOne | src/components/CommunityFeed.tsx:178 | a tap changes that post's shown like count by exactly +1 or -1 and no other post's count |
| CommunityFeed.GetDifficultyColor | src/components/CommunityFeed.tsx:107-114 | the colour is gray iff the difficulty is none of Einfach, Mittel, Schwer |
| CommunityFeed.DifficultyColorsDistinct | src/components/CommunityFeed.tsx:107-114 | the three difficulty levels get three different colours |
| CommunityFeed.Feed.constructor | src/components/CommunityFeed.tsx:31 | no post is liked at first |
| CommunityFeed.Feed.HandleLike | src/components/CommunityFeed.tsx:99-105 | the liked list becomes ToggleLike(old list, id) |
| LocationBrowser.Lower | src/components/LocationBrowser.tsx:67-68 | lowercasing keeps the length and maps each character through ASCII lowercasing on its own |
| LocationBrowser.IncludesIffOccurs | src/components/LocationBrowser.tsx:67-68 | includes holds iff the term occurs at some position |
| LocationBrowser.FilteredLocations | src/components/LocationBrowser.tsx:66-71 | the result is an order-preserving subsequence of the catalog that keeps a location iff its lowercased name or type contains the lowercased term and the filter is Alle or equals its type, with as many copies as the catalog has |
| LocationBrowser.EmptySearchShowsAll | src/components/LocationBrowser.tsx:67-69 | an empty term with the Alle filter returns the whole catalog |
| LocationBrowser.SearchIgnoresCase | src/components/LocationBrowser.tsx:67-68 | a term and its lowercase form select the same locations |
| LocationBrowser.TypeFilterIsExact | src/components/LocationBrowser.tsx:69 | the filter "escape room" selects nothing while "Escape Room" selects the escape room: the type match is case-sensitive |
| LocationBrowser.NoLocationOfType | src/components/LocationBrowser.tsx:69 | a filter naming no catalog type yields the empty list |
| LocationBrowser.ClubFilterEmpty | src/components/LocationBrowser.tsx:25-71 | the Club chip yields the empty result, whatever the term, so the empty-state message shows |
| LocationBrowser.ShownAmenities | src/components/LocationBrowser.tsx:149 | the shown amenities are a prefix of at most 3 entries, all of them when there are at most 3 |
| LocationBrowser.AmenitiesAccounted | src/components/LocationBrowser.tsx:149-157 | shown amenities plus the chip's n equal the total, and the chip appears iff some amenity is hidden |
| LocationBooking.FindLocation | src/pages/LocationBooking.tsx:74-87 | the result is the first catalog entry with the query id; a missing or unknown id gives None, the not-found view |
| LocationBooking.FindsEveryId | src/pages/LocationBooking.tsx:74 | in a catalog with distinct ids every venue is found by its own id |
| LocationBooking.CatalogLookup | src/pages/LocationBooking.tsx:38-74 | ids 1, 2 and 3 find Escape Universe, Party Basement and Craft Beer Garden |
| LocationBooking.UnknownLocation | src/pages/LocationBooking.tsx:74-87 | id 4 and a missing id find nothing, the not-found view |
| LocationBooking.GroupSizeFromInput | src/pages/LocationBooking.tsx:235 | NaN and 0 become exactly 1, and every other parsed value passes through unchanged, so the group size is never 0 |
| LocationBooking.ParseDecimal | src/pages/LocationBooking.tsx:235 | parseInt reads back the decimal rendering of every natural number, with or without a minus sign |
| LocationBooking.ParseIntShape | src/pages/LocationBooking.tsx:235 | white space, an optional sign, a non-empty digit run and a tail not starting with a digit parse to the signed value of the run |
| LocationBooking.ParseIntNaN | src/pages/LocationBooking.tsx:235 | white space and an optional sign with no digit right after them parse to NaN, a sign followed by white space included |
| LocationBooking.ParseIntStopsAtLetters | src/pages/LocationBooking.tsx:235 | "12abc" parses to 12 |
| LocationBooking.ParseIntSigns | src/pages/LocationBooking.tsx:235 | "+5" parses to 5 and " \t-7" to -7 |
| LocationBooking.ParseIntWithoutDigits | src/pages/LocationBooking.tsx:235 | "-", "- 5" and "abc" parse to NaN |
| LocationBooking.GroupSizeOfNumber | src/pages/LocationBooking.tsx:231-235 | a typed positive n gives group size n, and a negative -n passes through unclamped |
| LocationBooking.GroupSizeFallback | src/pages/LocationBooking.tsx:231-235 | empty, zero or non-numeric input gives group size 1 |
| LocationBooking.HandleBooking | src/pages/LocationBooking.tsx:91-123 | refused iff date, time, name or email is empty; otherwise a confirmed record that copies date, time, group size and customer fields and carries total = price x group size |
| LocationBooking.BookedTotalForTypedSize | src/pages/LocationBooking.tsx:89-114 | a booking made after typing n records n people and a total of n times the price; after emptying the input it records one person at the price of one |
| LocationBooking.PhoneIsOptional | src/pages/LocationBooking.tsx:92 | the phone number never decides whether a booking is accepted |

## Left out

- The React plumbing: context creation, `useUser`, rendering, styling, toasts, navigation and timers.
- The `console.log` on level-up (src/contexts/UserContext.tsx:68): `AddXP` returns the flag instead.
- Floating-point progress percentages (src/pages/QuestDetails.tsx:42, src/components/RewardSystem.tsx:136-141, src/components/UserProfile.tsx:30): only the integer counts are modelled.
- JavaScript numbers are doubles; the model uses unbounded integers, so precision loss above 2^53 is not modelled.
- The payment simulation of src/pages/LocationBooking.tsx:101-144: the delay, `isProcessing`, the localStorage write and the redirect. The random booking id and the current time are parameters of `HandleBooking`.
- LocationBooking.ParseInt: models base-10 `parseInt`; the `0x` prefix, which switches `parseInt` to base 16, is not modelled, since a number input never holds it.
- LocationBrowser.Lower: lowercases ASCII letters only. `toLowerCase` also folds non-ASCII capitals such as Ü, which the catalog names do not need for the stated results.
- QuestDetails.QuestSession.ToggleTask: requires an index of an existing task, as every caller passes one from `quest.tasks.map`. The source copies the array before flipping; the model flips it in place, because no other reference to the old array is observable.
- The difficulty table of src/pages/QuestDetails.tsx:49-56 is the same as CommunityFeed's and is modelled once, as `CommunityFeed.GetDifficultyColor`.
- `getStatusColor` in src/components/GroupEvents.tsx:84-91 and the event-creation dialog, which has no handler: display only.
- The unused `claimed: false` field of the reward catalog entries, the icons and the descriptions.
- src/components/QuestGenerator.tsx (random choice behind a delay), src/pages/BookingConfirmation.tsx (localStorage, JSON and locale dates), src/components/UserProfile.tsx and src/components/FriendsList.tsx (literals and display mappings) and the navigation pages: no logic of the core.
