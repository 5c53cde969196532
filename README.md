# League statistics engine, modelled in Dafny

`app.py` is a Flask site for a gaming society's league. It serves four
tables: the society results file (one row per player per event), the 2v2
team and match files, and the 1v1 player and match files. Below the route
handlers sits a small statistics engine, and that engine is what this
project models:

- **Coercion of results rows** (`rows.dfy`, `pytext.dfy`). Each cell of a
  results row becomes a typed field, and no row is ever rejected.
  - `player_id` becomes an `int`, or `None` when `int()` fails.
  - The other numbers become 0 when `int()` fails.
  - Text fields become `""` when they are missing, and are then stripped.
  - Python's `int()`, `str.strip()`, `str()` on integers and string order
    are written out as functions.
- **Match and roster loaders** (`rows.dfy`). A match row keeps a blank
  date as `None` and an unparsable point difference as `None`. Every other
  failure raises, and that aborts the whole load. A roster is an
  insertion-ordered dict where a later row overwrites an earlier one.
- **Caches** (`cache.dfy`). The results table is cached under the file's
  modification time. The match and roster tables are loaded once.
- **Player leaderboards** (`leaderboard.dfy`, `rounding.dfy`). Per-player
  totals over a season, or over one tier of a season, ranked by points and
  then wins. Python's stable sort keeps ties in first-appearance order. The
  rating is the mean event rating rounded half to even. The season board
  drops rows without a player id; the tier board keeps them under `None`.
  The rules that pick the season and tier, or answer not-found, are
  modelled too.
- **Conference tables and the 1v1 profile** (`standings.dfy`). Win/loss
  tables over completed matches, ranked by wins and then point difference.
  The 1v1 profile of one player lists their games, newest first, with a
  summary.
- **Summaries** (`grouping.dfy`, `events.dfy`, `player_pages.dfy`):
  - event summaries, each giving the date, the winner and the best score;
  - the society results nested by season and tier;
  - the event page, grouped by tier, where tier `""` shows as
    "Unclassified";
  - the player page, with the event history, wins and per-season lines;
  - the alphabetical player list.

`seqs.dfy` holds the shared sequence vocabulary:
- `Dedup` gives the key order of a dict filled in a loop.
- `SortBy` is a stable insertion sort standing for `list.sort`. It is proved
  sorted, a permutation and stable.
- `Filter` and `Map` are the list comprehensions.

`wrappers.dfy` holds `Option`.

Two kinds of route code are modelled differently:
- Route code that updates dict accumulators in a loop is a `method` with
  loop invariants, proved equal to a specification function. The function's
  properties are then proved as lemmas.
- Set comprehensions, filters and sort keys are functions.

A not-found answer (`abort(404)`) is `None`, or `NotFound` in the profile.

## Model

| member | source | states |
|---|---|---|
| PyText.Strip | app.py:37-40 | `strip()` leaves no whitespace (in the sense of `str.isspace`) at either end |
| PyText.StripRemovesOnlyEdges | app.py:37-40 | the stripped text is a contiguous slice of the input, and only whitespace was removed before and after it (for `strip()` and for the narrower whitespace `int()` skips) |
| PyText.ParseIntSound | app.py:31-61 | whatever `int()` accepts is, once stripped of the whitespace `int()` skips, an optional sign, leading zeros and the decimal digits of the magnitude; a `-` sign only gives a result that is at most 0, and no sign or `+` gives one that is at least 0 |
| PyText.ParseIntComplete | app.py:31-61 | every optional sign followed by any number of zeros and the digits of a magnitude parses to that magnitude, negated under `-` (for texts within the interpreter's digit limit; see "## Left out") |
| PyText.SeparatorStopsParse | app.py:31-61 | the information separators U+001C-U+001F are stripped by `strip()` but make `int()` fail: `int("\x1c5")` is an error |
| PyText.ParseIntRoundTrip | app.py:31-61 | parsing the decimal form of any integer gives back that integer (for integers of at most 4300 digits; see "## Left out") |
| PyText.ParseIntIgnoresPadding | app.py:31-61 | whitespace that `int()` skips, around a cell, never changes what `int()` makes of it |
| PyText.StrLeIsTotalPreorder | app.py:96 | Python's string comparison is total and transitive, so sorting strings is well defined |
| Rows.CoerceRow | app.py:31-64 | every text field of a coerced row has no surrounding whitespace |
| Rows.CoerceRows | app.py:25-66 | the loading loop keeps every row, in order, and coerces each one |
| Rows.CoerceRender | app.py:31-64 | coercing the written form of a row with stripped text fields gives the same row back, so coercion loses nothing |
| Rows.CoerceCells | app.py:31-64 | any raw row whose cells hold the decimal text of the numbers and the text fields coerces to exactly that typed row |
| Rows.DateOf | app.py:289 | a match date that is kept is non-empty and stripped; a blank date is `None` |
| Rows.ParseRenderMatch | app.py:289-304 | either match loader reads a written match back unchanged when its date is absent or non-empty and stripped: a blank date cell loads as no date and a blank point difference as no result |
| Rows.DiffCell | app.py:291-294 | a point difference cell holding decimal text reads back as that number, and an empty one as no result |
| Rows.DateCell | app.py:289 | a date cell holding a stripped non-empty date reads back as that date, and an empty one as no date |
| Rows.LoadMatches | app.py:280-306 | the loader succeeds exactly when every row parses, and then yields one match per row, in order |
| Rows.RosterOfIds | app.py:262-276 | the roster dict's keys are the ids of the rows, each once, in order of first appearance |
| Rows.RosterOfValid | app.py:647-661 | every roster the loops build is a well-formed ordered dict: distinct keys, each with an entry |
| Rows.RosterOfLastWins | app.py:269-274 | an id maps to the entity of its last row, so a duplicate row overwrites an earlier one |
| Rows.LoadRoster | app.py:647-661 | the roster loader succeeds exactly when every row parses, and then builds the dict of those assignments |
| Cache.Serve | app.py:16-71 | a failed mtime lookup serves `[]` and leaves the cache unchanged; otherwise the cache afterwards holds the rows served and the observed mtime |
| Cache.ServeReloads | app.py:24-68 | the cache changes only when nothing is cached or the mtime differs, and a reload serves the file's rows coerced |
| Cache.ServeAgain | app.py:24-71 | a second call under the same mtime serves the identical rows and changes nothing, whatever the file now holds |
| Cache.ServedRowsCoerced | app.py:25-71 | the rows served are always one coerced row per row of some version of the file |
| Cache.RowCache.constructor | app.py:13-14 | both cached values start out as `None` |
| Cache.RowCache.Get | app.py:16-71 | one call of the cached loader moves the two globals exactly as `Serve` prescribes and returns its rows |
| Cache.LoadOnce.constructor | app.py:261 | the load-once cache starts out empty |
| Cache.LoadOnce.Get | app.py:262-276 | the first successful load is kept and returned by every later call; a failed load leaves the cache empty |
| Grouping.GroupBy | app.py:474-482 | the `defaultdict(list)` loop gives the keys in first-appearance order, each holding exactly its elements in input order |
| Grouping.KeysMembers | app.py:620-622 | the grouping keys are distinct and are exactly the keys of the elements |
| Grouping.GroupMembers | app.py:620-622 | a group holds exactly the elements with that key, and it is empty exactly when the key is not listed |
| Leaderboard.Tally | app.py:101-129 | the accumulation loop builds one aggregate per player, in first-appearance order, equal to that player's totals over the counted rows |
| Leaderboard.Aggregate | app.py:101-145 | the route's aggregation and sort give exactly the specified board |
| Leaderboard.AggOfTotals | app.py:106-129 | a player's aggregate holds the name of their first row, the counts of ranks 1, 1-3 and 1-10, one event per row, and the sums of points and ratings |
| Leaderboard.EntryOfPlayer | app.py:131-143 | a player's line satisfies `wins <= podiums <= top10s <= events_played`, and its rating is the half-to-even rounded mean event rating |
| Leaderboard.BoardSorted | app.py:145 | the board is non-increasing in `(points, wins)` and is a permutation of the per-player lines |
| Leaderboard.BoardStable | app.py:591 | lines tied on `(points, wins)` keep the order in which their players first appear |
| Leaderboard.CountedIsFilter | app.py:102-105 | the rows the aggregation loop counts are exactly the rows with an id (or every row), in table order |
| Leaderboard.PlayerRowsIsFilter | app.py:197 | a player's rows are exactly the rows with that id, in table order |
| Leaderboard.BoardPlayers | app.py:102-106 | there is one line per distinct player id among the counted rows; the season board counts only rows with an id, the tier board counts every row |
| Leaderboard.BoardEntries | app.py:118-143 | every line holds its player's name, event count, point sum, ordered win/podium/top-10 counts and rounded mean rating |
| Leaderboard.BoardEventsTotal | app.py:118-119 | the events played on the board add up to the number of counted rows |
| Leaderboard.SeasonsSpec | app.py:88 | the season list is strictly increasing and holds exactly the seasons present |
| Leaderboard.SelectSeasonSpec | app.py:88-94 | it is not found exactly when the table is empty; a requested season that has rows is shown; otherwise the latest season is shown |
| Leaderboard.LatestSeason | app.py:94 | the last listed season is the maximum season of any row |
| Leaderboard.TiersInSpec | app.py:96 | a tier is listed for a season exactly when some row of that season has it |
| Leaderboard.SeasonLeaderboard | app.py:86-155 | the season page is not found exactly on an empty table; otherwise it shows the selected season's board over rows with an id, with the season and tier lists |
| Leaderboard.TierLeaderboard | app.py:540-600 | the tier page is not found exactly when no row has that season and tier; otherwise it shows the board over all of that tier's rows |
| Rounding.RoundHalfEvenNearest | app.py:133 | the rounded mean is within half a unit of `sum / count`, and is even at an exact half |
| Rounding.RoundHalfEvenUnique | app.py:142 | no other integer satisfies those two properties, so the rounding is Python's `round` |
| Standings.RecordOfBalanced | app.py:343-355 | in a team's record, wins and losses are non-negative and add up to matches played |
| Standings.RecordOfCounts | app.py:756-766 | wins count the completed matches won and losses count the completed matches lost |
| Standings.RecordOfCompleted | app.py:340-342 | fixtures without a point difference change no record |
| Standings.Credit | app.py:340-355 | one match adds to the record of each tallied entity exactly its share of that match: nothing for a fixture, else a win and `+d` to the winner and a loss and `-d` to the loser |
| Standings.Tally | app.py:339-355 | the tally loop leaves every member of the conference, and only those, with its record over all matches |
| Standings.LayOut | app.py:357-366 | the board lines come in the roster's order, one per member, each with its name and record |
| Standings.ConferencesListed | app.py:329 | the conference list is sorted and distinct, and holds exactly the conferences of the roster |
| Standings.ConferencesSpec | app.py:329-330 | the page can be built exactly when the roster is non-empty and its conferences are either all present or all missing |
| Standings.SelectConferenceSpec | app.py:330 | a listed conference is shown when requested; otherwise the first conference in sorted order is shown |
| Standings.TableSorted | app.py:368 | the table is non-increasing in `(wins, point_diff)` and is a permutation of the member lines |
| Standings.TableStable | app.py:778 | lines tied on `(wins, point_diff)` keep roster order |
| Standings.TableMembers | app.py:333-337 | every member of the selected conference appears exactly once, including those with no matches, and nobody else appears |
| Standings.TableLines | app.py:752-777 | each line carries the member's name and their record over all matches |
| Standings.LinesAddMatch | app.py:756-766 | one more match changes the table totals by that match's share for the conference |
| Standings.TableZeroSum | app.py:340-355 | when every completed match is within the conference, total wins equal total losses and point differences sum to zero |
| Standings.ConferenceTable | app.py:743-784 | the conference route's loops and sort yield exactly the specified table page |
| Standings.PlayerProfile | app.py:702-738 | the profile route's loops yield exactly the specified profile |
| Standings.ProfileFound | app.py:704-717 | it is not found exactly for an unknown player, and fails exactly when one of their matches names an unknown opponent |
| Standings.ProfileGames | app.py:709-719 | the games are a permutation of the player's matches, newest first, each with both names and the player's outcome |
| Standings.ProfileStable | app.py:719 | games on the same date keep file order |
| Standings.UndatedLast | app.py:718-719 | undated fixtures come after every dated game |
| Standings.SummaryBalanced | app.py:722-731 | the profile's wins and losses are non-negative and add up to games played |
| Standings.ProfileAgreesWithTable | app.py:722-731 | without self-matches, the profile's summary equals the player's record in the conference table |
| Events.SummariseEvents | app.py:484-508 | the grouping and summary loops yield exactly the specified event list |
| Events.WinnerSpec | app.py:494-498 | the winner row has the lowest rank, and it is the first such row in input order |
| Events.SortedWinner | app.py:496-497 | the head of the rows sorted by rank is that winner |
| Events.EventWinner | app.py:489-506 | an event's summary takes its date, winner and best score from the first lowest-ranked row of that event |
| Events.EventsSpec | app.py:507 | the summaries are sorted by date, one per event, each summarising that event's rows |
| Events.EventsListed | app.py:489-491 | an event is listed exactly when some row has its id |
| Events.EventsStable | app.py:638 | events on the same date keep first-appearance order |
| Events.SocietyTierPage | app.py:604-643 | the tier page lists exactly the event summaries of that season's tier, and is empty when there are none |
| Events.TierPageEvents | app.py:610-622 | an event is listed on a tier page exactly when a row of that season and tier has its id |
| Events.TierTablesFor | app.py:486-508 | the inner loop builds one event list per tier of a season, in first-appearance order |
| Events.SocietyResults | app.py:465-516 | the results page's loops yield exactly the specified nesting by season and tier |
| Events.NestedGroup | app.py:474-482 | grouping by season and then by tier gives exactly the rows of that season and tier |
| Events.ResultsSeasons | app.py:484-512 | the seasons are distinct and are exactly those present, and the sorted list is strictly increasing |
| Events.ResultsCell | app.py:486-508 | each cell is a tier that has rows in that season, and it lists exactly that tier's event summaries |
| Events.ShowEvent | app.py:158-187 | the event route's loops yield exactly the specified event page |
| Events.EventPageFound | app.py:161-179 | it is not found exactly when no row has the id; otherwise the date and season come from the first lowest-ranked row |
| Events.EventParticipants | app.py:166-173 | the tier labels are distinct and non-empty; every row of the event sits under its label, with `""` shown as "Unclassified"; each group is sorted by rank and is a permutation of the event's rows with that label, so a repeated row is listed as often as it occurs |
| PlayerPages.RecordVisit | app.py:216-233 | one pass of the loop appends the visit, counts a win, and adds the row to its season's tiers, rating sum and count |
| PlayerPages.Accumulate | app.py:205-233 | the history loop yields the visits in order, the number of rank-1 rows, and each season's tier set, rating sum and count |
| PlayerPages.SummariseSeasons | app.py:236-245 | the summary loop yields one line per season, sorted by season |
| PlayerPages.ShowPlayer | app.py:194-256 | the player route's loops yield exactly the specified player page |
| PlayerPages.PlayerPageFound | app.py:196-199 | it is not found exactly when no row has that player id |
| PlayerPages.PlayerHistory | app.py:202-225 | the history is a permutation of the player's rows, sorted by event date |
| PlayerPages.PlayerName | app.py:247 | the page name is that of the player's first row among those with the earliest date |
| PlayerPages.PlayerWins | app.py:226-227 | total wins count the player's rank-1 rows and never exceed the history length |
| PlayerPages.PlayerSeasons | app.py:236-245 | the season lines are strictly increasing and cover exactly the seasons the player played |
| PlayerPages.PlayerSeasonLine | app.py:229-243 | a season line's tiers are sorted, distinct and exactly the tiers the player played that season; its rating is the half-to-even rounded mean of that season's event ratings |
| PlayerPages.SocietyPlayers | app.py:443-461 | the players route's loops and sort yield exactly the specified player list |
| PlayerPages.IdsSeenAreCounted | app.py:449-452 | the rows the players list takes ids from are the rows the season leaderboard counts, those with an id, and in the same order |
| PlayerPages.PlayerListIds | app.py:449-458 | the listed ids are distinct, and an id is listed exactly when some row has it |
| PlayerPages.PlayerListName | app.py:454-455 | each listed name is that of the last row with that player's id |
| PlayerPages.PlayerListOrder | app.py:459 | the list is sorted by lower-cased name, and players with the same lower-cased name keep first-appearance order |

## Left out

- `int()` also accepts `_` digit separators and non-ASCII decimal digits; the model accepts only ASCII digits with an optional sign. Around the digits it skips the same whitespace `int()` does: everything `str.isspace` calls whitespace except U+001C-U+001F, which `strip()` removes but `int()` rejects.
- PyText.ParseInt: does not model the integer string conversion length limit of CPython 3.11 and later (and of the 3.10.7, 3.9.14, 3.8.14 and 3.7.14 releases): `int()` there raises `ValueError` on decimal text of more than 4300 digits, so such a cell would become 0 or `None` in the results loader and abort the match and roster loaders, while the model parses it. The limit is a setting of the interpreter, not of the program, so `ParseIntComplete` and `ParseIntRoundTrip` hold as stated only for texts within it.
- `str.lower()` is modelled for ASCII letters only; other characters are left as they are.
- `round(sum / count)` divides in floating point; the model rounds the exact rational half to even, which agrees for realistic magnitudes.
- The threading locks are left out: the cache is modelled as a sequential state machine, which is what the lock guarantees.
- File and CSV I/O, and `os.path.getmtime`, are left out. The mtime (as an integer, `None` when the lookup raises) and the rows a file holds are method parameters.
- A raw row keeps only the columns the loaders read; the other columns are never read.
- In-place `list.sort` and appends to lists are modelled on values: `SortBy` returns the sorted sequence.
- Cached-list side effects are left out: the results pages sort the cached match list in place (app.py:385, 790), and the team page adds name fields to cached match dicts (app.py:431-432). They affect only rendering order and fields.
- The routes `teams_2v2`, `players_1v1`, `results_2v2`, `results_1v1` and `team_page_2v2` are left out, as are the static `home` and `society_season_overview` pages. They only sort or filter for display.
- Flask routing and `render_template` are left out. `abort(404)` is a not-found result.
- Cache.LoadOnce.Get: takes the load's outcome as an argument that the caller has already evaluated, so it does not show that the file is read only on the first call.
- The exceptions of the unguarded parsing are modelled as a `None` result rather than an exception. These are the match and roster loaders' `int()` calls, the 2v2 date's `None.strip()` and the unknown opponent in the profile. The same goes for a conference list that is empty or mixes `None` with names.
- The 2v2 and 1v1 loaders and tables run the same code; each is modelled once, with a file tag where the two differ (the 2v2 date is not guarded against `None`).
- Per-season tier sets (app.py:211, 231) are modelled as a duplicate-free sequence that is then sorted, which has the same contents as `sorted(set)`.
- The results page's nested `defaultdict` (app.py:474-482) is modelled as grouping by season and then by tier. This gives the same keys, lists and order as the source's single pass.
- Standings.UndatedLast: assumes no match has the date `""`, which the loaders guarantee because a blank date becomes `None` (`Rows.DateOf`).
- Standings.ProfileAgreesWithTable: covers only players with no self-matches; the profile counts a self-match as a win, while the table counts it as both a win and a loss.
