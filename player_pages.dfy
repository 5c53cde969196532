/**
 * The two per-player views of the results table: a player's page (event
 * history by date, wins, and one summary per season) and the list of all
 * players with an id, alphabetical by lower-cased name.
 */
module PlayerPages {
  import opened Wrappers
  import opened Rows
  import opened PyText
  import Seqs
  import Leaderboard
  import Rounding
  import opened Grouping

  // The player page.

  /** One line of a player's history. */
  datatype Visit = Visit(
    eventId: string,
    eventDate: string,
    score: int,
    rank: int,
    eventPr: int,
    season: int,
    tier: string)

  /** One season of a player's page: the tiers played, sorted, and the rounded mean rating. */
  datatype SeasonSummary = SeasonSummary(season: int, tiers: seq<string>, prettyRating: int)

  datatype PlayerPage = PlayerPage(
    playerId: int,
    playerName: string,
    history: seq<Visit>,
    totalWins: int,
    seasons: seq<SeasonSummary>)

  function VisitOf(r: Row): Visit {
    Visit(r.eventId, r.eventDate, r.score, r.rank, r.eventPr, r.season, r.tier)
  }

  /** `key=lambda r: r["event_date"]`. */
  predicate ByEventDate(a: Row, b: Row) {
    StrLe(a.eventDate, b.eventDate)
  }

  lemma ByEventDateOrder()
    ensures Seqs.TotalPreorder(ByEventDate)
  {
    StrLeIsTotalPreorder();
  }

  /** `key=lambda x: x["season"]`. */
  predicate BySeason(a: SeasonSummary, b: SeasonSummary) {
    a.season <= b.season
  }

  function SeasonKey(s: SeasonSummary): int {
    s.season
  }

  /** The summary of one season, from the player's rows of that season. */
  function SeasonSummaryOf(rows: seq<Row>): int -> SeasonSummary {
    (season: int) =>
      var g := Group(rows, Leaderboard.SeasonOf, season);
      SeasonSummary(season, Seqs.SortBy(Keys(g, Leaderboard.TierOf), StrLe), Rounding.MeanRating(Leaderboard.SumPr(g), |g|))
  }

  /** The player's rows, sorted by date as the page sorts them in place. */
  function Dated(data: seq<Row>, pid: int): seq<Row> {
    Seqs.SortBy(Leaderboard.PlayerRows(data, Some(pid)), ByEventDate)
  }

  function PlayerPageOf(data: seq<Row>, pid: int): Option<PlayerPage> {
    if Leaderboard.PlayerRows(data, Some(pid)) == [] then None
    else
      var sorted := Dated(data, pid);
      Some(PlayerPage(
        pid,
        sorted[0].playerName,
        Seqs.Map(sorted, VisitOf),
        Leaderboard.RankCount(sorted, 1),
        SeasonLines(sorted)))
  }

  /** The season summaries, one per season played, sorted by season. */
  function SeasonLines(sorted: seq<Row>): seq<SeasonSummary> {
    Seqs.SortBy(Seqs.Map(Keys(sorted, Leaderboard.SeasonOf), SeasonSummaryOf(sorted)), BySeason)
  }

  /** The per-season entry of `season_stats`: the tiers seen, in order, and the rating sum and count. */
  datatype SeasonStat = SeasonStat(tiers: seq<string>, prSum: int, prCount: int)

  function StatOf(g: seq<Row>): SeasonStat {
    SeasonStat(Keys(g, Leaderboard.TierOf), Leaderboard.SumPr(g), |g|)
  }

  /** The `season_stats` part of what the history loop has built once it has seen `rows`. */
  ghost predicate StatsAccumulated(rows: seq<Row>, order: seq<int>, stats: map<int, SeasonStat>) {
    && order == Keys(rows, Leaderboard.SeasonOf)
    && (forall s | s in stats :: s in order)
    && (forall s | s in order :: s in stats)
    && (forall s | s in stats :: stats[s] == StatOf(Group(rows, Leaderboard.SeasonOf, s)))
  }

  /** What the history loop has built once it has seen `rows`. */
  ghost predicate Accumulated(rows: seq<Row>, history: seq<Visit>, totalWins: int,
                              order: seq<int>, stats: map<int, SeasonStat>) {
    && history == Seqs.Map(rows, VisitOf)
    && totalWins == Leaderboard.RankCount(rows, 1)
    && StatsAccumulated(rows, order, stats)
  }

  /** The loop body's update of `season_stats[r["season"]]`. */
  function NextStats(stats: map<int, SeasonStat>, r: Row): map<int, SeasonStat> {
    stats[r.season := StatAfter(stats, r)]
  }

  /** The new entry: the tier added if not yet seen, the rating added to the sum and counted. */
  function StatAfter(stats: map<int, SeasonStat>, r: Row): SeasonStat {
    var st := if r.season in stats then stats[r.season] else SeasonStat([], 0, 0);
    var tiers := if r.tier in st.tiers then st.tiers else st.tiers + [r.tier];
    SeasonStat(tiers, st.prSum + r.eventPr, st.prCount + 1)
  }

  lemma SumPrSnoc(g: seq<Row>, r: Row)
    ensures Leaderboard.SumPr(g + [r]) == Leaderboard.SumPr(g) + r.eventPr
  {
    assert (g + [r])[..|g|] == g;
  }

  lemma RankCountSnoc(rows: seq<Row>, r: Row, top: int)
    ensures Leaderboard.RankCount(rows + [r], top) == Leaderboard.RankCount(rows, top) + (if 1 <= r.rank <= top then 1 else 0)
  {
    assert (rows + [r])[..|rows|] == rows;
  }

  /** The stats entry of a season after one more row of that season. */
  lemma StatSnoc(g: seq<Row>, r: Row)
    ensures var st := StatOf(g);
      StatOf(g + [r]) == SeasonStat(if r.tier in st.tiers then st.tiers else st.tiers + [r.tier], st.prSum + r.eventPr, st.prCount + 1)
  {
    KeysSnoc(g, r, Leaderboard.TierOf);
    SumPrSnoc(g, r);
  }

  /** The entry of the row's own season after the row. */
  lemma StatsStepOwn(rows: seq<Row>, stats: map<int, SeasonStat>, r: Row)
    requires r.season in stats ==> stats[r.season] == StatOf(Group(rows, Leaderboard.SeasonOf, r.season))
    requires r.season !in stats ==> Group(rows, Leaderboard.SeasonOf, r.season) == []
    ensures NextStats(stats, r)[r.season] == StatOf(Group(rows + [r], Leaderboard.SeasonOf, r.season))
  {
    var g := Group(rows, Leaderboard.SeasonOf, r.season);
    GroupSnoc(rows, r, Leaderboard.SeasonOf, r.season);
    StatSnoc(g, r);
    if r.season !in stats {
      assert Keys(g, Leaderboard.TierOf) == [];
    }
  }

  /** One pass of the loop body over `season_stats`. */
  lemma StatsStep(rows: seq<Row>, order: seq<int>, stats: map<int, SeasonStat>, r: Row)
    requires StatsAccumulated(rows, order, stats)
    ensures StatsAccumulated(rows + [r], if r.season in stats then order else order + [r.season], NextStats(stats, r))
  {
    KeysSnoc(rows, r, Leaderboard.SeasonOf);
    GroupMembers(rows, Leaderboard.SeasonOf, r.season);
    StatsStepEntries(rows, stats, r);
  }

  /** Every entry of `season_stats` after the row. */
  lemma StatsStepEntries(rows: seq<Row>, stats: map<int, SeasonStat>, r: Row)
    requires forall s | s in stats :: stats[s] == StatOf(Group(rows, Leaderboard.SeasonOf, s))
    requires r.season !in stats ==> Group(rows, Leaderboard.SeasonOf, r.season) == []
    ensures forall s | s in NextStats(stats, r) :: NextStats(stats, r)[s] == StatOf(Group(rows + [r], Leaderboard.SeasonOf, s))
  {
    StatsStepOwn(rows, stats, r);
    forall s | s in NextStats(stats, r) && s != r.season
      ensures NextStats(stats, r)[s] == StatOf(Group(rows + [r], Leaderboard.SeasonOf, s))
    {
      StatsStepOther(rows, stats, r, s);
    }
  }

  /** The entries of the other seasons are unchanged by the row. */
  lemma StatsStepOther(rows: seq<Row>, stats: map<int, SeasonStat>, r: Row, s: int)
    requires s != r.season && s in stats
    requires stats[s] == StatOf(Group(rows, Leaderboard.SeasonOf, s))
    ensures NextStats(stats, r)[s] == StatOf(Group(rows + [r], Leaderboard.SeasonOf, s))
  {
    GroupSnoc(rows, r, Leaderboard.SeasonOf, s);
    assert Group(rows + [r], Leaderboard.SeasonOf, s) == Group(rows, Leaderboard.SeasonOf, s);
  }

  /** One pass of the history loop body. */
  lemma AccumulateStep(rows: seq<Row>, history: seq<Visit>, totalWins: int,
                       order: seq<int>, stats: map<int, SeasonStat>, r: Row)
    requires Accumulated(rows, history, totalWins, order, stats)
    ensures Accumulated(rows + [r], history + [VisitOf(r)], totalWins + (if r.rank == 1 then 1 else 0),
                        if r.season in stats then order else order + [r.season], NextStats(stats, r))
  {
    Seqs.MapSnoc(rows, r, VisitOf);
    RankCountSnoc(rows, r, 1);
    StatsStep(rows, order, stats, r);
  }

  /** The body of the history loop for one row. */
  method RecordVisit(history: seq<Visit>, totalWins: int, order: seq<int>, stats: map<int, SeasonStat>, r: Row)
    returns (history': seq<Visit>, totalWins': int, order': seq<int>, stats': map<int, SeasonStat>)
    ensures history' == history + [VisitOf(r)]
    ensures totalWins' == totalWins + (if r.rank == 1 then 1 else 0)
    ensures order' == if r.season in stats then order else order + [r.season]
    ensures stats' == NextStats(stats, r)
  {
    history' := history + [VisitOf(r)];
    totalWins' := totalWins;
    if r.rank == 1 {
      totalWins' := totalWins + 1;
    }
    var s := r.season;
    var st := if s in stats then stats[s] else SeasonStat([], 0, 0);
    order' := order;
    if s !in stats {
      order' := order + [s];
    }
    var tiers := if r.tier in st.tiers then st.tiers else st.tiers + [r.tier];
    stats' := stats[s := SeasonStat(tiers, st.prSum + r.eventPr, st.prCount + 1)];
  }

  /** The loop over the player's rows that builds the history, the win count and `season_stats`. */
  method Accumulate(rows: seq<Row>) returns (history: seq<Visit>, totalWins: int, order: seq<int>, stats: map<int, SeasonStat>)
    ensures Accumulated(rows, history, totalWins, order, stats)
  {
    history, totalWins, order, stats := [], 0, [], map[];
    for i := 0 to |rows|
      invariant Accumulated(rows[..i], history, totalWins, order, stats)
    {
      AccumulateStep(rows[..i], history, totalWins, order, stats, rows[i]);
      Seqs.TakeSnoc(rows, i);
      history, totalWins, order, stats := RecordVisit(history, totalWins, order, stats, rows[i]);
    }
    assert rows[..|rows|] == rows;
  }

  /**
   * The player page: not found for an id without rows; otherwise the rows
   * sorted by date, the history and win count, and the season summaries
   * sorted by season.
   */
  method ShowPlayer(data: seq<Row>, pid: int) returns (page: Option<PlayerPage>)
    ensures page == PlayerPageOf(data, pid)
  {
    var rows := Leaderboard.PlayerRows(data, Some(pid));
    if rows == [] {
      return None;
    }
    var sorted := Seqs.SortBy(rows, ByEventDate);
    var history, totalWins, order, stats := Accumulate(sorted);
    var summaries := SummariseSeasons(sorted, order, stats);
    page := Some(PlayerPage(pid, sorted[0].playerName, history, totalWins, summaries));
  }

  /** A season's accumulated stats give that season's summary. */
  lemma SummaryFromStat(sorted: seq<Row>, order: seq<int>, stats: map<int, SeasonStat>, s: int)
    requires StatsAccumulated(sorted, order, stats) && s in order
    ensures s in stats
    ensures var st := stats[s];
      SeasonSummary(s, Seqs.SortBy(st.tiers, StrLe), Rounding.MeanRating(st.prSum, st.prCount)) == SeasonSummaryOf(sorted)(s)
  {
  }

  /** The loop that turns `season_stats` into the season summaries, then the sort by season. */
  method SummariseSeasons(sorted: seq<Row>, order: seq<int>, stats: map<int, SeasonStat>) returns (summaries: seq<SeasonSummary>)
    requires StatsAccumulated(sorted, order, stats)
    ensures summaries == SeasonLines(sorted)
  {
    summaries := [];
    for j := 0 to |order|
      invariant summaries == Seqs.Map(order[..j], SeasonSummaryOf(sorted))
    {
      Seqs.TakeSnoc(order, j);
      Seqs.MapSnoc(order[..j], order[j], SeasonSummaryOf(sorted));
      SummaryFromStat(sorted, order, stats, order[j]);
      var st := stats[order[j]];
      summaries := summaries + [SeasonSummary(order[j], Seqs.SortBy(st.tiers, StrLe), Rounding.MeanRating(st.prSum, st.prCount))];
    }
    assert order[..|order|] == order;
    summaries := Seqs.SortBy(summaries, BySeason);
  }

  // What the player page promises.

  /** The rows of one player are exactly the table's rows with that id. */
  lemma {:induction false} PlayerRowsMembers(rows: seq<Row>, id: Option<int>)
    ensures forall r :: r in Leaderboard.PlayerRows(rows, id) <==> r in rows && r.playerId == id
  {
    if rows != [] {
      var pre, last := rows[..|rows| - 1], rows[|rows| - 1];
      assert rows == pre + [last];
      PlayerRowsMembers(pre, id);
      Leaderboard.PlayerRowsSnoc(pre, last, id);
    }
  }

  lemma DatedMembers(data: seq<Row>, pid: int)
    ensures multiset(Dated(data, pid)) == multiset(Leaderboard.PlayerRows(data, Some(pid)))
    ensures forall r :: r in Dated(data, pid) <==> r in data && r.playerId == Some(pid)
  {
    var rows := Leaderboard.PlayerRows(data, Some(pid));
    PlayerRowsMembers(data, Some(pid));
    Seqs.SortByPerm(rows, ByEventDate);
    Seqs.SortByMembers(rows, ByEventDate);
  }

  /** The fields of a found page. */
  lemma PageFields(data: seq<Row>, pid: int)
    requires PlayerPageOf(data, pid).Some?
    ensures Leaderboard.PlayerRows(data, Some(pid)) != []
    ensures var sorted := Dated(data, pid);
      PlayerPageOf(data, pid).value ==
        PlayerPage(pid, sorted[0].playerName, Seqs.Map(sorted, VisitOf), Leaderboard.RankCount(sorted, 1), SeasonLines(sorted))
  {
  }

  /** The page is not found exactly when no row carries the id. */
  lemma PlayerPageFound(data: seq<Row>, pid: int)
    ensures PlayerPageOf(data, pid).None? <==> forall k | 0 <= k < |data| :: data[k].playerId != Some(pid)
  {
    Leaderboard.PlayerRowsEmpty(data, Some(pid));
  }

  /** The history lists every row of the player once, ordered by event date. */
  lemma PlayerHistory(data: seq<Row>, pid: int)
    requires PlayerPageOf(data, pid).Some?
    ensures var p := PlayerPageOf(data, pid).value;
      && p.playerId == pid
      && multiset(p.history) == multiset(Seqs.Map(Leaderboard.PlayerRows(data, Some(pid)), VisitOf))
      && forall i, j | 0 <= i < j < |p.history| :: StrLe(p.history[i].eventDate, p.history[j].eventDate)
  {
    var rows := Leaderboard.PlayerRows(data, Some(pid));
    var sorted := Dated(data, pid);
    PageFields(data, pid);
    ByEventDateOrder();
    Seqs.SortBySorted(rows, ByEventDate);
    Seqs.SortByMap(rows, ByEventDate, VisitOf);
    var h := Seqs.Map(sorted, VisitOf);
    forall i, j | 0 <= i < j < |h| ensures StrLe(h[i].eventDate, h[j].eventDate) {
      assert ByEventDate(sorted[i], sorted[j]);
    }
  }

  /** The name shown is the one on the player's first row with the earliest date. */
  lemma PlayerName(data: seq<Row>, pid: int) returns (k: nat)
    requires PlayerPageOf(data, pid).Some?
    ensures var rows := Leaderboard.PlayerRows(data, Some(pid));
      && k < |rows| && PlayerPageOf(data, pid).value.playerName == rows[k].playerName
      && (forall j | 0 <= j < |rows| :: StrLe(rows[k].eventDate, rows[j].eventDate))
      && (forall j | 0 <= j < k :: !StrLe(rows[j].eventDate, rows[k].eventDate))
  {
    PageFields(data, pid);
    k := FirstEarliest(Leaderboard.PlayerRows(data, Some(pid)));
  }

  /** The head of the rows sorted by date is the first row with the earliest date. */
  lemma FirstEarliest(rows: seq<Row>) returns (k: nat)
    requires rows != []
    ensures k < |rows| && Seqs.SortBy(rows, ByEventDate)[0] == rows[k]
    ensures forall j | 0 <= j < |rows| :: StrLe(rows[k].eventDate, rows[j].eventDate)
    ensures forall j | 0 <= j < k :: !StrLe(rows[j].eventDate, rows[k].eventDate)
  {
    ByEventDateOrder();
    k := Seqs.SortByHead(rows, ByEventDate);
    forall j | 0 <= j < |rows| ensures StrLe(rows[k].eventDate, rows[j].eventDate) {
      assert ByEventDate(rows[k], rows[j]);
    }
    forall j | 0 <= j < k ensures !StrLe(rows[j].eventDate, rows[k].eventDate) {
      assert !ByEventDate(rows[j], rows[k]);
    }
  }

  lemma {:induction false} RankCountAppend(a: seq<Row>, b: seq<Row>, top: int)
    ensures Leaderboard.RankCount(a + b, top) == Leaderboard.RankCount(a, top) + Leaderboard.RankCount(b, top)
  {
    if b != [] {
      var pre := b[..|b| - 1];
      assert (a + b)[..|a + b| - 1] == a + pre;
      assert (a + b)[|a + b| - 1] == b[|b| - 1];
      RankCountAppend(a, pre, top);
    } else {
      assert a + b == a;
    }
  }

  lemma {:induction false} SumPrAppend(a: seq<Row>, b: seq<Row>)
    ensures Leaderboard.SumPr(a + b) == Leaderboard.SumPr(a) + Leaderboard.SumPr(b)
  {
    if b != [] {
      var pre := b[..|b| - 1];
      assert (a + b)[..|a + b| - 1] == a + pre;
      assert (a + b)[|a + b| - 1] == b[|b| - 1];
      SumPrAppend(a, pre);
    } else {
      assert a + b == a;
    }
  }

  /** `b` with one element taken out, and what is left of `a` once its last element is gone. */
  lemma RemoveLast(a: seq<Row>, b: seq<Row>) returns (i: nat)
    requires a != [] && multiset(a) == multiset(b)
    ensures i < |b| && b[i] == a[|a| - 1]
    ensures b == b[..i] + [b[i]] + b[i + 1..]
    ensures multiset(a[..|a| - 1]) == multiset(b[..i] + b[i + 1..])
  {
    var x := a[|a| - 1];
    var pre := a[..|a| - 1];
    assert a == pre + [x];
    assert x in multiset(b);
    i :| 0 <= i < |b| && b[i] == x;
    assert b == b[..i] + [x] + b[i + 1..];
    var rest := b[..i] + b[i + 1..];
    forall y ensures multiset(pre)[y] == multiset(rest)[y] {
      assert multiset(a)[y] == multiset(pre)[y] + multiset{x}[y];
      assert multiset(b)[y] == multiset(b[..i])[y] + multiset{x}[y] + multiset(b[i + 1..])[y];
    }
    Seqs.MultisetExt(multiset(pre), multiset(rest));
  }

  /** Counting top places does not depend on the order of the rows. */
  lemma {:induction false} RankCountPerm(a: seq<Row>, b: seq<Row>, top: int)
    requires multiset(a) == multiset(b)
    ensures Leaderboard.RankCount(a, top) == Leaderboard.RankCount(b, top)
  {
    if a == [] {
      assert |b| == |multiset(b)| == 0;
    } else {
      var i := RemoveLast(a, b);
      RankCountPerm(a[..|a| - 1], b[..i] + b[i + 1..], top);
      RankCountAppend(b[..i], [b[i]] + b[i + 1..], top);
      RankCountAppend([b[i]], b[i + 1..], top);
      RankCountAppend(b[..i], b[i + 1..], top);
      assert b[..i] + [b[i]] + b[i + 1..] == b[..i] + ([b[i]] + b[i + 1..]);
    }
  }

  /** Summing ratings does not depend on the order of the rows. */
  lemma {:induction false} SumPrPerm(a: seq<Row>, b: seq<Row>)
    requires multiset(a) == multiset(b)
    ensures Leaderboard.SumPr(a) == Leaderboard.SumPr(b)
  {
    if a == [] {
      assert |b| == |multiset(b)| == 0;
    } else {
      var i := RemoveLast(a, b);
      SumPrPerm(a[..|a| - 1], b[..i] + b[i + 1..]);
      SumPrAppend(b[..i], [b[i]] + b[i + 1..]);
      SumPrAppend([b[i]], b[i + 1..]);
      SumPrAppend(b[..i], b[i + 1..]);
      assert b[..i] + [b[i]] + b[i + 1..] == b[..i] + ([b[i]] + b[i + 1..]);
    }
  }

  /** The win count is the number of the player's rows ranked first. */
  lemma PlayerWins(data: seq<Row>, pid: int)
    requires PlayerPageOf(data, pid).Some?
    ensures var p := PlayerPageOf(data, pid).value;
      && p.totalWins == Leaderboard.RankCount(Leaderboard.PlayerRows(data, Some(pid)), 1)
      && p.totalWins <= |p.history|
  {
    PageFields(data, pid);
    DatedMembers(data, pid);
    RankCountPerm(Dated(data, pid), Leaderboard.PlayerRows(data, Some(pid)), 1);
    Leaderboard.RankCountBound(Dated(data, pid), 1);
  }

  lemma BySeasonOrder()
    ensures Seqs.TotalPreorder(BySeason)
  {
  }

  lemma SummaryOfSeason(sorted: seq<Row>)
    ensures forall s :: SeasonSummaryOf(sorted)(s).season == s
  {
  }

  /** A summary list keyed by distinct seasons, sorted by season, rises strictly and lists those seasons. */
  lemma {:induction false} KeyedLines(keys: seq<int>, f: int -> SeasonSummary)
    requires forall s :: f(s).season == s
    requires Seqs.Distinct(keys)
    ensures var ss := Seqs.SortBy(Seqs.Map(keys, f), BySeason);
      && (forall i, j | 0 <= i < j < |ss| :: ss[i].season < ss[j].season)
      && (forall s :: s in Seqs.Map(ss, SeasonKey) <==> s in keys)
  {
    var lines := Seqs.Map(keys, f);
    assert Seqs.Map(lines, SeasonKey) == keys;
    Seqs.SortByKeys(lines, BySeason, SeasonKey);
    BySeasonOrder();
    Seqs.SortBySorted(lines, BySeason);
    var ss := Seqs.SortBy(lines, BySeason);
    var ks := Seqs.Map(ss, SeasonKey);
    forall i, j | 0 <= i < j < |ss| ensures ss[i].season < ss[j].season {
      assert BySeason(ss[i], ss[j]);
      assert ks[i] != ks[j];
    }
  }

  /** Each line of such a list is the summary of its own season, one of the keys. */
  lemma KeyedLine(keys: seq<int>, f: int -> SeasonSummary, ss: SeasonSummary)
    requires forall s :: f(s).season == s
    requires ss in Seqs.SortBy(Seqs.Map(keys, f), BySeason)
    ensures ss.season in keys && ss == f(ss.season)
  {
    var lines := Seqs.Map(keys, f);
    Seqs.SortByMembers(lines, BySeason);
    var j :| 0 <= j < |lines| && lines[j] == ss;
    var k := keys[j];
    assert ss == f(k) && k in keys;
    assert f(k).season == k;
    assert ss.season == k;
  }

  /** The seasons the player has rows in. */
  lemma SeasonsPlayed(data: seq<Row>, pid: int)
    ensures forall s :: s in Keys(Dated(data, pid), Leaderboard.SeasonOf) <==>
      exists r :: r in data && r.playerId == Some(pid) && r.season == s
  {
    var sorted := Dated(data, pid);
    KeysMembers(sorted, Leaderboard.SeasonOf);
    DatedMembers(data, pid);
    forall s ensures s in Keys(sorted, Leaderboard.SeasonOf) <==> exists r :: r in data && r.playerId == Some(pid) && r.season == s {
      if s in Keys(sorted, Leaderboard.SeasonOf) {
        var i :| 0 <= i < |sorted| && Leaderboard.SeasonOf(sorted[i]) == s;
        assert sorted[i] in sorted;
      }
      if exists r :: r in data && r.playerId == Some(pid) && r.season == s {
        var r :| r in data && r.playerId == Some(pid) && r.season == s;
        var i :| 0 <= i < |sorted| && sorted[i] == r;
        assert Leaderboard.SeasonOf(sorted[i]) == s;
      }
    }
  }

  /** One summary per season the player played, in increasing season order. */
  lemma PlayerSeasons(data: seq<Row>, pid: int)
    requires PlayerPageOf(data, pid).Some?
    ensures var ss := PlayerPageOf(data, pid).value.seasons;
      && (forall i, j | 0 <= i < j < |ss| :: ss[i].season < ss[j].season)
      && (forall s :: s in Seqs.Map(ss, SeasonKey) <==> exists r :: r in data && r.playerId == Some(pid) && r.season == s)
  {
    PageFields(data, pid);
    var sorted := Dated(data, pid);
    var keys := Keys(sorted, Leaderboard.SeasonOf);
    KeysMembers(sorted, Leaderboard.SeasonOf);
    SummaryOfSeason(sorted);
    KeyedLines(keys, SeasonSummaryOf(sorted));
    assert PlayerPageOf(data, pid).value.seasons == Seqs.SortBy(Seqs.Map(keys, SeasonSummaryOf(sorted)), BySeason);
    SeasonsPlayed(data, pid);
  }

  /** `sorted(set(tiers))`: each tier of the rows once, in order. */
  lemma TierSet(g: seq<Row>)
    ensures var tiers := Seqs.SortBy(Keys(g, Leaderboard.TierOf), StrLe);
      && Seqs.SortedBy(tiers, StrLe) && Seqs.Distinct(tiers)
      && forall t :: t in tiers <==> exists r :: r in g && r.tier == t
  {
    var names := Seqs.Map(g, Leaderboard.TierOf);
    StrLeIsTotalPreorder();
    Seqs.SortedSet(names, StrLe);
    forall t ensures t in names <==> exists r :: r in g && r.tier == t {
      if t in names {
        var i :| 0 <= i < |g| && names[i] == t;
        assert g[i] in g;
      }
      if exists r :: r in g && r.tier == t {
        var r :| r in g && r.tier == t;
        var i :| 0 <= i < |g| && g[i] == r;
        assert names[i] == t;
      }
    }
  }

  /** The tiers of a season: each tier the player played in that season once, in order. */
  lemma SeasonTiers(data: seq<Row>, pid: int, s: int)
    ensures var tiers := Seqs.SortBy(Keys(Group(Dated(data, pid), Leaderboard.SeasonOf, s), Leaderboard.TierOf), StrLe);
      && Seqs.SortedBy(tiers, StrLe) && Seqs.Distinct(tiers)
      && forall t :: t in tiers <==> exists r :: r in data && r.playerId == Some(pid) && r.season == s && r.tier == t
  {
    var gs := Group(Dated(data, pid), Leaderboard.SeasonOf, s);
    TierSet(gs);
    GroupMembers(Dated(data, pid), Leaderboard.SeasonOf, s);
    DatedMembers(data, pid);
    assert forall r :: r in gs <==> r in data && r.playerId == Some(pid) && r.season == s;
  }

  /** A season's rows in date order have the same count and rating sum as in table order. */
  lemma SeasonRating(data: seq<Row>, pid: int, s: int)
    requires s in Keys(Dated(data, pid), Leaderboard.SeasonOf)
    ensures var gs := Group(Dated(data, pid), Leaderboard.SeasonOf, s);
      var g := Group(Leaderboard.PlayerRows(data, Some(pid)), Leaderboard.SeasonOf, s);
      |gs| == |g| > 0 && Leaderboard.SumPr(gs) == Leaderboard.SumPr(g)
  {
    var gs := Group(Dated(data, pid), Leaderboard.SeasonOf, s);
    var g := Group(Leaderboard.PlayerRows(data, Some(pid)), Leaderboard.SeasonOf, s);
    DatedMembers(data, pid);
    Seqs.FilterPerm(Dated(data, pid), Leaderboard.PlayerRows(data, Some(pid)), HasKey(Leaderboard.SeasonOf, s));
    SumPrPerm(gs, g);
    GroupMembers(Dated(data, pid), Leaderboard.SeasonOf, s);
    assert |gs| == |multiset(gs)| == |multiset(g)| == |g|;
  }

  /**
   * Each season summary lists the season's tiers sorted and once each, and
   * shows the player's mean rating over the season, rounded half to even.
   */
  lemma PlayerSeasonLine(data: seq<Row>, pid: int, i: int)
    requires PlayerPageOf(data, pid).Some?
    requires 0 <= i < |PlayerPageOf(data, pid).value.seasons|
    ensures var ss := PlayerPageOf(data, pid).value.seasons[i];
      var g := Group(Leaderboard.PlayerRows(data, Some(pid)), Leaderboard.SeasonOf, ss.season);
      && Seqs.SortedBy(ss.tiers, StrLe) && Seqs.Distinct(ss.tiers)
      && (forall t :: t in ss.tiers <==> exists r :: r in data && r.playerId == Some(pid) && r.season == ss.season && r.tier == t)
      && |g| > 0 && ss.prettyRating == Rounding.RoundHalfEven(Leaderboard.SumPr(g), |g|)
  {
    PageFields(data, pid);
    var sorted := Dated(data, pid);
    var ss := SeasonLines(sorted)[i];
    SummaryOfSeason(sorted);
    assert ss in SeasonLines(sorted);
    KeyedLine(Keys(sorted, Leaderboard.SeasonOf), SeasonSummaryOf(sorted), ss);
    SeasonTiers(data, pid, ss.season);
    SeasonRating(data, pid, ss.season);
  }

  // The society's player list.

  /** One entry of the list: an id and the name kept for it. */
  datatype Listing = Listing(playerId: int, playerName: string)

  function ListingId(l: Listing): int {
    l.playerId
  }

  /** The ids of the rows that have one, in table order. */
  function IdsSeen(data: seq<Row>): seq<int> {
    if data == [] then []
    else
      var last := data[|data| - 1];
      IdsSeen(data[..|data| - 1]) + (if last.playerId.Some? then [last.playerId.value] else [])
  }

  /** The ids seen are the ids of the rows the leaderboard counts when it skips unknown players. */
  lemma {:induction false} IdsSeenAreCounted(data: seq<Row>)
    ensures var c := Leaderboard.Counted(data, true);
      |c| == |IdsSeen(data)| && forall k :: 0 <= k < |c| ==> c[k].playerId == Some(IdsSeen(data)[k])
  {
    if data != [] {
      var pre, last := data[..|data| - 1], data[|data| - 1];
      IdsSeenAreCounted(pre);
      var c, ids := Leaderboard.Counted(pre, true), IdsSeen(pre);
      if last.playerId.Some? {
        assert Leaderboard.Counted(data, true) == c + [last];
        assert IdsSeen(data) == ids + [last.playerId.value];
      } else {
        assert Leaderboard.Counted(data, true) == c;
        assert IdsSeen(data) == ids;
      }
    }
  }

  /** The name on the last row with the id: each row overwrites the name the dict keeps. */
  function LatestName(data: seq<Row>, pid: int): string {
    if data == [] then ""
    else
      var last := data[|data| - 1];
      if last.playerId == Some(pid) then last.playerName else LatestName(data[..|data| - 1], pid)
  }

  function ListingOf(data: seq<Row>): int -> Listing {
    (pid: int) => Listing(pid, LatestName(data, pid))
  }

  /** `key=lambda x: x["player_name"].lower()`. */
  predicate ByLowerName(a: Listing, b: Listing) {
    StrLe(Lower(a.playerName), Lower(b.playerName))
  }

  /** The list: one entry per id in order of first appearance, then sorted by lower-cased name. */
  function PlayerList(data: seq<Row>): seq<Listing> {
    Seqs.SortBy(Seqs.Map(Seqs.Dedup(IdsSeen(data)), ListingOf(data)), ByLowerName)
  }

  /** What the collecting loop has built once it has seen `rows`. */
  ghost predicate Collected(rows: seq<Row>, order: seq<int>, names: map<int, string>) {
    && order == Seqs.Dedup(IdsSeen(rows))
    && (forall pid | pid in names :: pid in order)
    && (forall pid | pid in order :: pid in names)
    && (forall pid | pid in names :: names[pid] == LatestName(rows, pid))
  }

  lemma IdsSeenSnoc(rows: seq<Row>, r: Row)
    ensures IdsSeen(rows + [r]) == IdsSeen(rows) + (if r.playerId.Some? then [r.playerId.value] else [])
  {
    assert (rows + [r])[..|rows|] == rows;
  }

  lemma LatestNameSnoc(rows: seq<Row>, r: Row, pid: int)
    ensures LatestName(rows + [r], pid) == if r.playerId == Some(pid) then r.playerName else LatestName(rows, pid)
  {
    assert (rows + [r])[..|rows|] == rows;
  }

  /** One pass of the collecting loop body. */
  lemma CollectStep(rows: seq<Row>, order: seq<int>, names: map<int, string>, r: Row)
    requires Collected(rows, order, names)
    ensures r.playerId.None? ==> Collected(rows + [r], order, names)
    ensures r.playerId.Some? ==>
      var pid := r.playerId.value;
      Collected(rows + [r], if pid in names then order else order + [pid], names[pid := r.playerName])
  {
    if r.playerId.None? {
      CollectOrder(rows, order, names, r, order);
      CollectNames(rows, names, r, names);
    } else {
      var pid := r.playerId.value;
      CollectOrder(rows, order, names, r, if pid in names then order else order + [pid]);
      CollectNames(rows, names, r, names[pid := r.playerName]);
    }
  }

  /** The order of first appearance after one more row. */
  lemma CollectOrder(rows: seq<Row>, order: seq<int>, names: map<int, string>, r: Row, order': seq<int>)
    requires order == Seqs.Dedup(IdsSeen(rows))
    requires forall pid :: pid in names <==> pid in order
    requires order' == if r.playerId.Some? && r.playerId.value !in names then order + [r.playerId.value] else order
    ensures order' == Seqs.Dedup(IdsSeen(rows + [r]))
  {
    IdsSeenSnoc(rows, r);
    if r.playerId.None? {
      assert IdsSeen(rows + [r]) == IdsSeen(rows);
    } else {
      Seqs.DedupSnoc(IdsSeen(rows), r.playerId.value);
    }
  }

  /** The kept names after one more row. */
  lemma CollectNames(rows: seq<Row>, names: map<int, string>, r: Row, names': map<int, string>)
    requires forall pid | pid in names :: names[pid] == LatestName(rows, pid)
    requires names' == if r.playerId.Some? then names[r.playerId.value := r.playerName] else names
    ensures forall pid | pid in names' :: names'[pid] == LatestName(rows + [r], pid)
  {
    forall pid | pid in names' ensures names'[pid] == LatestName(rows + [r], pid) {
      LatestNameSnoc(rows, r, pid);
    }
  }

  /** The body of the collecting loop for one row: rows without an id are skipped. */
  method CollectName(order: seq<int>, names: map<int, string>, r: Row) returns (order': seq<int>, names': map<int, string>)
    ensures r.playerId.None? ==> order' == order && names' == names
    ensures r.playerId.Some? ==>
      var pid := r.playerId.value;
      order' == (if pid in names then order else order + [pid]) && names' == names[pid := r.playerName]
  {
    order', names' := order, names;
    if r.playerId.None? {
      return;
    }
    var pid := r.playerId.value;
    if pid !in names {
      order' := order + [pid];
    }
    names' := names[pid := r.playerName];
  }

  /** The society's player list: collect the names by id, build the entries, sort by lower-cased name. */
  method SocietyPlayers(data: seq<Row>) returns (list: seq<Listing>)
    ensures list == PlayerList(data)
  {
    var order: seq<int> := [];
    var names: map<int, string> := map[];
    for i := 0 to |data|
      invariant Collected(data[..i], order, names)
    {
      CollectStep(data[..i], order, names, data[i]);
      Seqs.TakeSnoc(data, i);
      order, names := CollectName(order, names, data[i]);
    }
    assert data[..|data|] == data;
    list := [];
    for j := 0 to |order|
      invariant list == Seqs.Map(order[..j], ListingOf(data))
    {
      Seqs.TakeSnoc(order, j);
      Seqs.MapSnoc(order[..j], order[j], ListingOf(data));
      list := list + [Listing(order[j], names[order[j]])];
    }
    assert order[..|order|] == order;
    list := Seqs.SortBy(list, ByLowerName);
  }

  // What the player list promises.

  /** An id is seen exactly when some row carries it. */
  lemma {:induction false} IdsSeenMembers(data: seq<Row>)
    ensures forall pid :: pid in IdsSeen(data) <==> exists k :: 0 <= k < |data| && data[k].playerId == Some(pid)
  {
    if data != [] {
      var pre, last := data[..|data| - 1], data[|data| - 1];
      assert data == pre + [last];
      IdsSeenMembers(pre);
      forall pid ensures pid in IdsSeen(data) <==> exists k :: 0 <= k < |data| && data[k].playerId == Some(pid) {
        if exists k :: 0 <= k < |pre| && pre[k].playerId == Some(pid) {
          var k :| 0 <= k < |pre| && pre[k].playerId == Some(pid);
          assert data[k] == pre[k];
        }
        if exists k :: 0 <= k < |data| && data[k].playerId == Some(pid) {
          var k :| 0 <= k < |data| && data[k].playerId == Some(pid);
          if k < |pre| {
            assert pre[k] == data[k];
          }
        }
      }
    }
  }

  /** The name kept for a seen id comes from its last row. */
  lemma {:induction false} LatestNameSpec(data: seq<Row>, pid: int) returns (k: nat)
    requires exists k :: 0 <= k < |data| && data[k].playerId == Some(pid)
    ensures k < |data| && data[k].playerId == Some(pid) && data[k].playerName == LatestName(data, pid)
    ensures forall j | k < j < |data| :: data[j].playerId != Some(pid)
  {
    var pre, last := data[..|data| - 1], data[|data| - 1];
    if last.playerId == Some(pid) {
      k := |data| - 1;
    } else {
      var k' :| 0 <= k' < |data| && data[k'].playerId == Some(pid);
      assert pre[k'] == data[k'];
      k := LatestNameSpec(pre, pid);
      assert pre[k] == data[k];
      forall j | k < j < |data| ensures data[j].playerId != Some(pid) {
        if j < |pre| {
          assert pre[j] == data[j];
        }
      }
    }
  }

  lemma ByLowerNameOrder()
    ensures Seqs.TotalPreorder(ByLowerName)
  {
    StrLeIsTotalPreorder();
    assert forall a: Listing, b: Listing :: ByLowerName(a, b) == StrLe(Lower(a.playerName), Lower(b.playerName));
  }

  /** Every player with an id is listed exactly once. */
  lemma PlayerListIds(data: seq<Row>)
    ensures Seqs.Distinct(Seqs.Map(PlayerList(data), ListingId))
    ensures forall pid :: pid in Seqs.Map(PlayerList(data), ListingId) <==> exists k :: 0 <= k < |data| && data[k].playerId == Some(pid)
  {
    var ids := Seqs.Dedup(IdsSeen(data));
    var entries := Seqs.Map(ids, ListingOf(data));
    assert Seqs.Map(entries, ListingId) == ids;
    Seqs.SortByKeys(entries, ByLowerName, ListingId);
    IdsSeenMembers(data);
  }

  /** Each entry shows the name on the last row with its id. */
  lemma PlayerListName(data: seq<Row>, l: Listing) returns (k: nat)
    requires l in PlayerList(data)
    ensures k < |data| && data[k].playerId == Some(l.playerId) && data[k].playerName == l.playerName
    ensures forall j | k < j < |data| :: data[j].playerId != Some(l.playerId)
  {
    var ids := Seqs.Dedup(IdsSeen(data));
    var entries := Seqs.Map(ids, ListingOf(data));
    Seqs.SortByMembers(entries, ByLowerName);
    var j :| 0 <= j < |entries| && entries[j] == l;
    var pid := ids[j];
    assert l == Listing(pid, LatestName(data, pid));
    IdsSeenMembers(data);
    assert pid in IdsSeen(data);
    k := LatestNameSpec(data, pid);
  }

  /** The list is in order of lower-cased name, and entries whose lower-cased names are equal keep their first-appearance order. */
  lemma PlayerListOrder(data: seq<Row>, l: Listing)
    ensures var list := PlayerList(data);
      forall i, j | 0 <= i < j < |list| :: StrLe(Lower(list[i].playerName), Lower(list[j].playerName))
    ensures Seqs.Peers(PlayerList(data), l, ByLowerName) ==
      Seqs.Peers(Seqs.Map(Seqs.Dedup(IdsSeen(data)), ListingOf(data)), l, ByLowerName)
  {
    var entries := Seqs.Map(Seqs.Dedup(IdsSeen(data)), ListingOf(data));
    ByLowerNameOrder();
    Seqs.SortBySorted(entries, ByLowerName);
    Seqs.SortByStable(entries, l, ByLowerName);
    var list := PlayerList(data);
    forall i, j | 0 <= i < j < |list| ensures StrLe(Lower(list[i].playerName), Lower(list[j].playerName)) {
      assert ByLowerName(list[i], list[j]);
    }
  }
}
