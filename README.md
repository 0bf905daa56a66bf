# Puis-je scorekeeper — a Dafny model

"Puis-je" is a rummy-style card game played over five rounds. Each round has
a fixed mission (two three-of-a-kinds, a run and a three-of-a-kind, …). The
player who goes out first wins the round and scores −20 points. Every other
player scores the card points left in their hand. The lowest total after
round 5 wins.

The browser keeps the game in progress in an `App` object and mirrors it into
local storage. `gist.js` and `players.js` are server-side modules: one keeps
a history of finished games with aggregate statistics, the other a registry
of pseudonyms with per-player statistics. The code that calls them is not
part of this model.

This project models three parts of that system:

- **`GameSession`** (`session.dfy`) models the `App` object in `app.js`. It is
  a class whose methods change the roster, the round pointer, the current
  winner and the visible screen. Two ghost fields stand for what local
  storage holds: the last saved session snapshot and the remembered names.
  The pure steps are functions, proved once and used by the methods:
  building the roster, renumbering after a deletion, validating and
  settling a round, and sorting the standings.
- **`PlayerRegistry`** (`registry.dfy`) models the pseudonym registry in
  `players.js`. The registry document is passed in, and every writing
  operation returns the document it would write back. Names are compared
  without regard to case.
- **`GameHistory`** (`history.dfy`) models `addGame` and `getStats` in
  `gist.js`. The statistics are defined as functions of the game list. The
  loops that compute them are methods proved equal to those functions.
- **`Common`** holds the shared helpers: `Option`, ASCII `toLowerCase`,
  `trim`, and `slice(0, n)`.
- **`Sorting`** holds the stable comparator sort that `Array.prototype.sort`
  performs. The model proves that the sort orders its result, keeps the same
  multiset of elements, and keeps tied elements in their original order.

What is proved, in the system's terms:

- A round is accepted only if every non-winner has entered a positive point
  count.
- When a round is settled:
  - the winner gets −20 and each loser exactly what they entered;
  - each player's total score stays equal to the sum of their round history;
  - ids stay `1..n`;
  - the round pointer advances and the snapshot is saved;
  - the final screen appears exactly after round 5.
- Adding a player keeps the roster at 5 or fewer. Deleting a player keeps at
  least 3. Both keep the ids dense.
- Once the stored snapshot holds the roster that is in memory, every method
  except `restoreGame` keeps it that way. `restoreGame` establishes it when it
  restores the stored snapshot, which is how page load calls it. At page
  load, before `restoreGame`, the roster is still empty while the snapshot
  holds the stored one.
- The registry never gains a second entry with the same name, ignoring
  case. `addPlayers` appends, in input order, one entry for each name not yet
  present (the first spelling of a batch wins), and writes only when it has
  added one.
- A player's best score never increases, and only that player's entry
  changes.
- The top-winners list holds at most 10 names with their true win counts,
  in descending order. Any winner left out has no more wins than every
  winner listed.
- The best-scores list holds the three lowest winning scores, one entry per
  qualifying game, with ties in game order.
- Each round bucket takes its mission from the first occurrence of that
  round number, and collects all of that round's scores in game order.

## Behaviour of the code worth knowing

- Loser points are checked only for being at least 1. No upper bound is
  enforced.
- `startGame` does not check the names it receives or reset the round
  pointer, and `currentWinner` is never cleared.
- Adding or deleting a player in the middle of a game saves the snapshot
  with round 1.
- The history entry of a round beyond 5 has no mission.
  `StartRound` shows a placeholder for such a round.

## Model

| member | source | states |
|---|---|---|
| GameSession.Mission | app.js:10-16 | a round has a mission exactly when it is between 1 and 5 |
| GameSession.MissionLabel | app.js:192 | the mission of rounds 1–5, the placeholder text for any other round |
| GameSession.TotalAppend | app.js:320-329 | appending a round score to a history adds exactly that score to the history's total |
| GameSession.NewRoster | app.js:167-173 | one player per name, in order, with id index+1, score 0 and an empty history; the roster is coherent (dense ids, scores equal to history totals) |
| GameSession.Renumber | app.js:97-100 | ids become 1..n and every other field of every player is kept |
| GameSession.RemovePlayer | app.js:94-100 | exactly the player at the index is removed, the others keep their order and data, ids become dense, coherence is preserved |
| GameSession.AppendPlayer | app.js:132-137 | existing players are unchanged; the new one comes last with id n+1, score 0, no history; coherence is preserved |
| GameSession.Losers | app.js:297 | a player is a loser exactly when it is in the roster and its id differs from the winner's |
| GameSession.LosersAppend | app.js:297 | the losers of a joined roster are the losers of each part in turn: losers keep roster order |
| GameSession.LosersSingle | app.js:297 | a single player is a loser, once, exactly when it is not the winner |
| GameSession.FirstInvalid | app.js:298-306 | no loser is reported exactly when every loser has a valid entry; a reported loser is invalid and every loser before it is valid |
| GameSession.FirstInvalidNoneIff | app.js:297-306 | the check passes exactly when every non-winner has entered a positive number |
| GameSession.Delta | app.js:311-317 | the winner's round score is −20; a loser's is the positive number entered for it |
| GameSession.SettlePlayer | app.js:319-330 | id and name are kept; the score grows by the round score; the history grows by one entry with the round, that score and that round's mission; a score equal to the history total stays equal |
| GameSession.SettleRound | app.js:310-331 | the roster keeps its order and size, every player is settled, and dense ids and coherence are preserved |
| GameSession.Standings | app.js:359-360 | the standings hold the same players, in ascending score order, with tied players in roster order |
| GameSession.FiveRoundGame | app.js:310-334 | a three-player game in which Alice wins round 1 and Bob the other four ends at 20, −68 and 48 |
| GameSession.App.constructor | app.js:4-7 | empty roster, round 1, no winner, home screen |
| GameSession.App.StartGame | app.js:167-188 | the roster is built from the names, the names are remembered, a round-1 in-progress snapshot of the roster is saved; the round pointer is untouched |
| GameSession.App.StartRound | app.js:191-209 | the mission announced is the current round's label, and the snapshot saved records it with `roundStarted` set |
| GameSession.App.SelectWinner | app.js:228-279 | the chosen player becomes the current winner and the points entry opens |
| GameSession.App.ValidateScores | app.js:295-352 | without a winner or with an invalid loser entry nothing changes, and the first such loser is named; otherwise the roster is settled, the round advances by one, a snapshot with `roundStarted` cleared is saved, and the final screen shows exactly when the round pointer passes 5; coherence and the stored mirror are preserved |
| GameSession.App.AddPlayer | app.js:124-149 | a player is added exactly when there are fewer than 5 and the prompt gave a non-blank name; the trimmed name is appended and a round-1 snapshot is saved; otherwise nothing changes |
| GameSession.App.DeletePlayer | app.js:86-112 | a player is deleted exactly when there are more than 3, the index names one, and the deletion is confirmed; the rest are renumbered and a round-1 snapshot is saved; otherwise nothing changes |
| GameSession.App.RestoreGame | app.js:115-121 | the stored roster is taken, with the stored round or 1 when that is 0; restoring the stored snapshot, as page load does, makes memory mirror it |
| GameSession.App.EndGame | app.js:489-512 | when confirmed: empty roster, round 1, no stored session, home screen, remembered names kept; otherwise nothing changes |
| Common.Lower | players.js:129 | each ASCII capital becomes its small letter and every other character is kept |
| Common.Trim | app.js:131 | the trimmed name is a contiguous middle of the input with only whitespace around it; it is empty exactly when the input is all whitespace, and otherwise neither starts nor ends with whitespace |
| Common.Take | gist.js:157 | the first `n` elements, or all of them when there are fewer |
| Sorting.SortBy | app.js:360 | the comparator sort returns an arrangement of the same elements (same length, same multiset) |
| Sorting.SortBySorted | app.js:360 | the comparator sort orders its result by the key |
| Sorting.SortByStable | gist.js:172-173 | elements with equal keys keep their relative order |
| Sorting.PrefixIsSmallest | gist.js:172-174 | an element a sorted `slice(0, n)` drops has a key no smaller than any element it keeps |
| PlayerRegistry.AnyNamed | players.js:129 | true exactly when some entry's name equals the given one, ignoring case |
| PlayerRegistry.PlayerExists | players.js:127-130 | true exactly when the registry holds the name, ignoring case |
| PlayerRegistry.FindIndex | players.js:223 | the index of the first entry with that name, ignoring case; none when no entry has it |
| PlayerRegistry.Taken | players.js:136-148 | a name is reported exactly when it is among the given names and the registry already holds it |
| PlayerRegistry.TakenAppend | players.js:140-145 | the report for a joined list of names is the report for each part in turn: input order is kept |
| PlayerRegistry.TakenSingle | players.js:141-144 | a single name is reported, once, exactly when it is registered |
| PlayerRegistry.CheckPlayers | players.js:136-148 | the loop reports, in order, exactly the given names the registry already holds |
| PlayerRegistry.AddPlayer | players.js:153-176 | refused exactly when the name is taken; otherwise one entry with initial stats is appended and the rest is kept |
| PlayerRegistry.AddAll | players.js:185-200 | reference definition: names are added one by one, each skipped when it is already present, ignoring case, in the registry or earlier in the batch; properties in AddAllFresh and AddPlayers |
| PlayerRegistry.AddAllFresh | players.js:185-200 | after the first m names, the registry is its old entries followed by fresh entries with initial stats for names of the batch, no two sharing a name ignoring case, and each of those m names is present |
| PlayerRegistry.AddPlayers | players.js:181-207 | the result is exactly the reference batch addition; existing entries are kept; every given name is registered afterwards; each added entry is fresh, has initial stats, and was not held before or added earlier in the batch; the count is the number appended; the document is written exactly when the count is positive; names stay unique |
| PlayerRegistry.AllPlayerNames | players.js:212-215 | the names of the entries, in order |
| PlayerRegistry.Bumped | players.js:228-248 | one more game played, one more win when won, best score the lower of the old one and the final score, and the date refreshed exactly on a new record |
| PlayerRegistry.BestScoreNeverIncreases | players.js:245-248 | after an update the best score is at most the previous best and at most the final score |
| PlayerRegistry.UpdatePlayerStats | players.js:220-252 | fails exactly when no entry has the name; otherwise only the first matching entry's stats change, and names and creation dates are kept |
| PlayerRegistry.ApplyUpdate | players.js:261-284 | reference definition: one update applied with the single-player rule, skipped for an unknown name; properties on UpdatePlayerStats |
| PlayerRegistry.ApplyAll | players.js:260-285 | reference definition: the updates applied in order; properties on UpdateMultiplePlayersStats |
| PlayerRegistry.UpdateMultiplePlayersStats | players.js:257-289 | the batch applies the updates in order; names and creation dates are kept, entries no update names are unchanged, and names stay unique |
| GameHistory.NewGame | gist.js:114-118 | reference definition of the stored record: a posted id or date overrides the generated one; properties on AddGame |
| GameHistory.AddGame | gist.js:110-133 | the existing games are kept and the new game comes last, with posted fields overriding the generated id and date; the game count is in sync, the update time is refreshed, and the game is returned only when the write succeeds |
| GameHistory.TotalPlayers | gist.js:144 | reference definition of the player total; properties in TotalPlayersAppend and AddGameCountsPlayers |
| GameHistory.TotalPlayersAppend | gist.js:144 | the player total of two game lists joined is the sum of their totals |
| GameHistory.AddGameCountsPlayers | gist.js:114-126 | recording a game adds exactly its player count to the player total |
| GameHistory.WinnerOrder | gist.js:147-155 | a name is listed exactly when it won a game, and no name is listed twice |
| GameHistory.WinnerOrderSnoc | gist.js:147-155 | one more game puts its winner at the end of the order exactly when that winner had not won before, and leaves the order unchanged otherwise |
| GameHistory.WinnerOrderPrefix | gist.js:147-155 | the winners of the first k games are listed first, in the same order |
| GameHistory.WinnerOrderFirstWinFirst | gist.js:147-155 | a name that won within the first k games is listed before a name whose first win comes later |
| GameHistory.WinTallies | gist.js:147-155 | every tally holds its name's true, positive win count, every winner has a tally, and no name has two |
| GameHistory.TopWinners | gist.js:154-157 | reference definition of the list shown; properties in TopWinnersCounts, TopWinnersOrdered and TopWinnersComplete |
| GameHistory.TopWinnersCounts | gist.js:147-157 | at most 10 tallies, each with its name's true win count |
| GameHistory.TopWinnersOrdered | gist.js:154-157 | the tallies are in descending order of wins |
| GameHistory.TopWinnersComplete | gist.js:154-157 | a winner left out means 10 names are shown, each with at least as many wins |
| GameHistory.ScoreEntries | gist.js:160-169 | an entry exists exactly for each game with a winner and a winning score, and it holds that game's score, winner and date |
| GameHistory.ScoreEntriesAppend | gist.js:161-169 | the entries of a joined game list are those of each part in turn: entries follow game order |
| GameHistory.ScoreEntriesSingle | gist.js:162-168 | a single game gives one entry exactly when it has a winner and a winning score |
| GameHistory.BestScores | gist.js:171-174 | reference definition of the list shown; properties in BestScoresOrdered and BestScoresLowest |
| GameHistory.BestScoresOrdered | gist.js:171-174 | at most 3 entries, the lowest of the sorted list, in ascending order, with ties in game order |
| GameHistory.BestScoresLowest | gist.js:171-174 | a winning score left out is no lower than any score shown |
| GameHistory.AddRound | gist.js:180-189 | reference definition of one round's step; properties in BucketedSpec |
| GameHistory.Bucketed | gist.js:177-192 | reference definition of the buckets after a list of rounds; properties in BucketedSpec |
| GameHistory.BucketedSpec | gist.js:177-192 | a round number has a bucket exactly when some round carries it; the bucket's mission is that of its first occurrence, and its scores are all that round's scores in order |
| GameHistory.NoRoundNoScores | gist.js:187-189 | a round number that no round carries contributes no scores |
| GameHistory.LastUpdate | gist.js:209 | reference definition: the stored update time when it is present and non-empty, none otherwise; used by GetStats |
| GameHistory.CountWinners | gist.js:147-155 | the counting loop yields exactly the reference tallies |
| GameHistory.CollectScores | gist.js:160-169 | the collecting loop yields exactly the reference score entries |
| GameHistory.CollectRounds | gist.js:177-192 | the nested loops yield exactly the reference buckets |
| GameHistory.GetStats | gist.js:138-211 | totals, top winners, best scores, round buckets and the last update time, each equal to its reference definition |

## Left out

- Rendering, `showScreen`'s DOM work, and the display helpers are left out: `displayPlayers`, `createPlayerInputs`, `modifyPlayers`, `showWinnerSelection`, `updatePlayerTotal`, the score and detail views, and `closeModal`. They only draw; the model keeps the screen as a field.
- The `DOMContentLoaded` wiring is left out: the form that accepts 3–5 trimmed names, and the restore-on-load check of `inProgress`. It is event plumbing around the methods modelled.
- `alert`, `confirm` and `prompt` are not modelled as dialogs. Their answers are parameters: `confirmed` and `entered`.
- The points fields are not read from the page. `validateScores` receives a map from player id to the parsed entry, where a missing entry stands for an empty field.
- The text of a points field is not parsed. The model receives the integer `parseInt` would read. A field such as "12abc" reads as 12. A field with no leading digits reads as `NaN`, which passes the check in the source; that case is not modelled. Numbers are unbounded integers, not doubles.
- `storage.js` is not modelled. Local storage is represented only as the two ghost fields, and `saveScores({})` in `endGame` is not modelled, because nothing in the core reads that slot.
- GameSession.App.Mirrored: the snapshot ghost records what was handed to `saveGameState`. A write that fails, which `saveGameState` reports only to the console, is not modelled.
- GameSession.App.constructor: does not establish `Mirrored()`. At page load the roster is empty while storage may still hold an earlier roster.
- `server.js` and the HTTP transport are not modelled. Neither are the `fetch` and file reads and writes behind `getPlayers`, `savePlayers`, `getGistData` and `saveGistData`, or their fallbacks on error. The loaded document is a parameter, and the write result of `addGame` is a parameter.
- Concurrency is not modelled. Each registry and history call loads the document, changes it and saves it across `await`s, so two overlapping calls can lose a write. The model treats each call as one atomic step.
- Clock readings (`Date.now()`, `toISOString()`) are parameters, one per call. A batch in `addPlayers` or `updateMultiplePlayersStats` therefore uses one timestamp throughout.
- `averageScoresByRound` and `averagePlayersPerGame` are left out: they use floating-point division and rounding. The model returns the buckets and totals they are computed from.
- Common.Lower: folds only ASCII letters. JavaScript's `toLowerCase` also folds other letters.
- GameHistory.WinnerOrder: lists names in the order of their first win. JavaScript lists names that look like array indices first, in numeric order. The counts live in a plain object, so a winner named after an inherited property is also not modelled. For a name like `toString` or `constructor`, the first count reads the inherited function, and the tally becomes a string that makes the sort comparator return `NaN`. A winner named `__proto__` is never stored.
- GameHistory.WinTallies: has the same two gaps as WinnerOrder, for names that look like array indices and names of inherited properties.
- GameHistory.NewGame: keeps only the six fields the statistics read. The source keeps every posted field. A posted `id` or `date` that is explicitly `null` also overrides the generated value in the source, while the model treats a missing value as absent.
- GameHistory.ScoreEntries: a winning score of `null`, or of another non-number, is not modelled. Neither is a document whose `games` field is missing.
- A registry entry whose `stats` object lacks a `bestScore` field is not modelled. Stats are either absent or carry all four fields.
- A player added with `addPlayer` has no `roundScores` in the source. The model gives it an empty history, which the source's `|| []` treats the same way.
- GameSession.App.ValidateScores: the source crashes when no winner has been chosen; the model answers `NoWinnerSelected` and changes nothing.
- GameSession.App.DeletePlayer: the source crashes when the index names no player; the model refuses and changes nothing.
