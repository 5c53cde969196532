/**
 * The event views of the results table: the one-line event summaries of the
 * society results and tier pages (date, winner and best score, ordered by
 * date), the season-and-tier nesting of the results page, and the event page
 * (the event's rows by rank, grouped by tier).
 */
module Events {
  import opened Wrappers
  import opened Rows
  import opened PyText
  import Seqs
  import Leaderboard
  import opened Grouping

  /** One line of an event table. */
  datatype EventSummary = EventSummary(eventId: string, eventDate: string, winner: string, bestScore: int)

  function EventIdOf(r: Row): string {
    r.eventId
  }

  function SummaryId(s: EventSummary): string {
    s.eventId
  }

  /** `key=lambda x: x["rank"]`. */
  predicate ByRank(a: Row, b: Row) {
    a.rank <= b.rank
  }

  lemma ByRankOrder()
    ensures Seqs.TotalPreorder(ByRank)
  {
  }

  /** `key=lambda x: x["event_date"]`. */
  predicate ByDate(a: EventSummary, b: EventSummary) {
    StrLe(a.eventDate, b.eventDate)
  }

  lemma ByDateOrder()
    ensures Seqs.TotalPreorder(ByDate)
  {
    StrLeIsTotalPreorder();
  }

  /** The first row of minimum rank. */
  function Winner(rs: seq<Row>): Row
    requires rs != []
  {
    if |rs| == 1 then rs[0]
    else
      var w := Winner(rs[..|rs| - 1]);
      if rs[|rs| - 1].rank < w.rank then rs[|rs| - 1] else w
  }

  /** The summary line of event `e`, from its rows. */
  function Summarize(e: string, rs: seq<Row>): EventSummary
    requires rs != []
  {
    var w := Winner(rs);
    EventSummary(e, w.eventDate, w.playerName, w.score)
  }

  /** The summaries of the events `es`, in the order of `es`. */
  function Summaries(rows: seq<Row>, es: seq<string>): (r: seq<EventSummary>)
    requires forall e | e in es :: Group(rows, EventIdOf, e) != []
    ensures |r| == |es|
  {
    if es == [] then []
    else
      var e := es[|es| - 1];
      Summaries(rows, es[..|es| - 1]) + [Summarize(e, Group(rows, EventIdOf, e))]
  }

  lemma {:induction false} SummariesAt(rows: seq<Row>, es: seq<string>)
    requires forall e | e in es :: Group(rows, EventIdOf, e) != []
    ensures forall i :: 0 <= i < |es| ==> Summaries(rows, es)[i] == Summarize(es[i], Group(rows, EventIdOf, es[i]))
  {
    if es != [] {
      var n := |es| - 1;
      SummariesAt(rows, es[..n]);
      var pre := Summaries(rows, es[..n]);
      forall i | 0 <= i < n ensures Summaries(rows, es)[i] == Summarize(es[i], Group(rows, EventIdOf, es[i])) {
        assert es[i] == es[..n][i];
        assert Summaries(rows, es)[i] == pre[i];
      }
    }
  }

  /** The summaries in order of each event's first row, before the sort by date. */
  function EventLines(rows: seq<Row>): seq<EventSummary> {
    KeysGrouped(rows, EventIdOf);
    Summaries(rows, Keys(rows, EventIdOf))
  }

  /** The event table of `rows`: one summary per event, sorted by date. */
  function EventsOf(rows: seq<Row>): seq<EventSummary> {
    Seqs.SortBy(EventLines(rows), ByDate)
  }

  /**
   * The summary loop shared by the results and tier pages: group the rows
   * by event, sort each event's rows by rank and summarise the first one,
   * then sort the summaries by date.
   */
  method SummariseEvents(rows: seq<Row>) returns (summaries: seq<EventSummary>)
    ensures summaries == EventsOf(rows)
  {
    var order, groups := GroupBy(rows, EventIdOf);
    KeysGrouped(rows, EventIdOf);
    var acc: seq<EventSummary> := [];
    for i := 0 to |order|
      invariant acc == Summaries(rows, order[..i])
    {
      SummariesAt(rows, order[..i + 1]);
      Seqs.TakeSnoc(order, i);
      var e := order[i];
      var evRows := Seqs.SortBy(groups[e], ByRank);
      SortedWinner(groups[e]);
      acc := acc + [EventSummary(e, evRows[0].eventDate, evRows[0].playerName, evRows[0].score)];
    }
    assert order[..|order|] == order;
    summaries := Seqs.SortBy(acc, ByDate);
  }

  /**
   * The winner of an event is a row of minimum rank, the first such row in
   * file order.
   */
  lemma {:induction false} WinnerSpec(rs: seq<Row>) returns (k: nat)
    requires rs != []
    ensures k < |rs| && Winner(rs) == rs[k]
    ensures forall j :: 0 <= j < |rs| ==> rs[k].rank <= rs[j].rank
    ensures forall j :: 0 <= j < k ==> rs[k].rank < rs[j].rank
  {
    if |rs| == 1 {
      k := 0;
    } else {
      var n := |rs| - 1;
      var pre := rs[..n];
      var k' := WinnerSpec(pre);
      assert forall j :: 0 <= j < n ==> pre[j] == rs[j];
      k := if rs[n].rank < pre[k'].rank then n else k';
    }
  }

  /** Sorting an event's rows by rank, stably, puts its winner first. */
  lemma SortedWinner(rs: seq<Row>)
    requires rs != []
    ensures Seqs.SortBy(rs, ByRank)[0] == Winner(rs)
  {
    ByRankOrder();
    var k := Seqs.SortByHead(rs, ByRank);
    var k' := WinnerSpec(rs);
    assert rs[k'].rank <= rs[k].rank && rs[k].rank <= rs[k'].rank;
  }

  /**
   * An event's summary line shows the date, name and score of the first
   * minimum-rank row among the rows of that event.
   */
  lemma EventWinner(rows: seq<Row>, e: string)
    requires exists i :: 0 <= i < |rows| && rows[i].eventId == e
    ensures var g := Group(rows, EventIdOf, e);
      && g != []
      && (forall r :: r in g <==> r in rows && r.eventId == e)
      && exists k :: (0 <= k < |g| &&
           Summarize(e, g) == EventSummary(e, g[k].eventDate, g[k].playerName, g[k].score) &&
           (forall j :: 0 <= j < |g| ==> g[k].rank <= g[j].rank) &&
           (forall j :: 0 <= j < k ==> g[k].rank < g[j].rank))
  {
    KeysMembers(rows, EventIdOf);
    GroupMembers(rows, EventIdOf, e);
    var k := WinnerSpec(Group(rows, EventIdOf, e));
  }

  /** Each line before the sort is the summary of its own event, and no event has two. */
  lemma LinesSummarise(rows: seq<Row>)
    ensures Seqs.Distinct(Seqs.Map(EventLines(rows), SummaryId))
    ensures forall s | s in EventLines(rows) ::
      Group(rows, EventIdOf, s.eventId) != [] && s == Summarize(s.eventId, Group(rows, EventIdOf, s.eventId))
  {
    var keys := Keys(rows, EventIdOf);
    KeysGrouped(rows, EventIdOf);
    var u := EventLines(rows);
    KeysMembers(rows, EventIdOf);
    SummariesAt(rows, keys);
    assert Seqs.Map(u, SummaryId) == keys;
    forall s | s in u
      ensures Group(rows, EventIdOf, s.eventId) != [] && s == Summarize(s.eventId, Group(rows, EventIdOf, s.eventId))
    {
      var i :| 0 <= i < |u| && u[i] == s;
    }
  }

  /**
   * The event table is in date order, and each of its lines is the summary
   * of its own event, no event twice.
   */
  lemma EventsSpec(rows: seq<Row>)
    ensures var es := EventsOf(rows);
      && (forall i, j :: 0 <= i < j < |es| ==> StrLe(es[i].eventDate, es[j].eventDate))
      && Seqs.Distinct(Seqs.Map(es, SummaryId))
      && (forall s | s in es ::
            Group(rows, EventIdOf, s.eventId) != [] &&
            s == Summarize(s.eventId, Group(rows, EventIdOf, s.eventId)))
  {
    var u := EventLines(rows);
    LinesSummarise(rows);
    Seqs.SortByKeys(u, ByDate, SummaryId);
    ByDateOrder();
    Seqs.SortBySorted(u, ByDate);
    Seqs.SortByMembers(u, ByDate);
  }

  /** An event has a line in the table exactly when some row belongs to it. */
  lemma EventsListed(rows: seq<Row>, e: string)
    ensures e in Seqs.Map(EventsOf(rows), SummaryId) <==> exists i :: 0 <= i < |rows| && rows[i].eventId == e
  {
    var keys := Keys(rows, EventIdOf);
    KeysGrouped(rows, EventIdOf);
    var u := EventLines(rows);
    KeysMembers(rows, EventIdOf);
    SummariesAt(rows, keys);
    assert Seqs.Map(u, SummaryId) == keys;
    Seqs.SortByKeys(u, ByDate, SummaryId);
  }

  /** Events on the same date keep the order in which they first appear. */
  lemma EventsStable(rows: seq<Row>, x: EventSummary)
    ensures Seqs.Peers(EventsOf(rows), x, ByDate) == Seqs.Peers(EventLines(rows), x, ByDate)
  {
    ByDateOrder();
    Seqs.SortByStable(EventLines(rows), x, ByDate);
  }

  /**
   * The events of one tier of one season. An empty tier shows an empty
   * list rather than a 404.
   */
  method SocietyTierPage(data: seq<Row>, seasonId: int, tierName: string) returns (events: seq<EventSummary>)
    ensures events == EventsOf(Leaderboard.InSeasonTier(data, seasonId, tierName))
  {
    var filtered := Leaderboard.InSeasonTier(data, seasonId, tierName);
    if filtered == [] {
      assert Keys(filtered, EventIdOf) == [];
      return [];
    }
    events := SummariseEvents(filtered);
  }

  /** The tier page lists exactly the events held in that tier of that season. */
  lemma TierPageEvents(data: seq<Row>, seasonId: int, tierName: string, e: string)
    ensures e in Seqs.Map(EventsOf(Leaderboard.InSeasonTier(data, seasonId, tierName)), SummaryId) <==>
      exists k :: 0 <= k < |data| && data[k].season == seasonId && data[k].tier == tierName && data[k].eventId == e
  {
    EventsListed(Leaderboard.InSeasonTier(data, seasonId, tierName), e);
    InSeasonTierEvent(data, seasonId, tierName, e);
  }

  lemma InSeasonTierEvent(data: seq<Row>, seasonId: int, tierName: string, e: string)
    ensures var rows := Leaderboard.InSeasonTier(data, seasonId, tierName);
      (exists i :: 0 <= i < |rows| && rows[i].eventId == e) <==>
      exists k :: 0 <= k < |data| && data[k].season == seasonId && data[k].tier == tierName && data[k].eventId == e
  {
    var rows := Leaderboard.InSeasonTier(data, seasonId, tierName);
    if exists i :: 0 <= i < |rows| && rows[i].eventId == e {
      var i :| 0 <= i < |rows| && rows[i].eventId == e;
      assert rows[i] in rows;
      var k :| 0 <= k < |data| && data[k] == rows[i];
    }
    if exists k :: 0 <= k < |data| && data[k].season == seasonId && data[k].tier == tierName && data[k].eventId == e {
      var k :| 0 <= k < |data| && data[k].season == seasonId && data[k].tier == tierName && data[k].eventId == e;
      assert data[k] in data;
      assert data[k] in rows;
      var i :| 0 <= i < |rows| && rows[i] == data[k];
    }
  }

  // The society results page: seasons, then tiers, then events.

  datatype TierEvents = TierEvents(tier: string, events: seq<EventSummary>)

  datatype SeasonEvents = SeasonEvents(season: int, tiers: seq<TierEvents>)

  /** The nested summary, in order of first appearance, and `sorted(summary.keys())`. */
  datatype Results = Results(summary: seq<SeasonEvents>, seasonsSorted: seq<int>)

  function TierKey(t: TierEvents): string {
    t.tier
  }

  function SeasonKey(s: SeasonEvents): int {
    s.season
  }

  /** The event table of one tier of a season's rows. */
  function TierTable(rows: seq<Row>): string -> TierEvents {
    (t: string) => TierEvents(t, EventsOf(Group(rows, Leaderboard.TierOf, t)))
  }

  /** The tier tables of one season's rows, tiers in order of first appearance. */
  function TiersOf(rows: seq<Row>): seq<TierEvents> {
    Seqs.Map(Keys(rows, Leaderboard.TierOf), TierTable(rows))
  }

  /** The tier tables of one season of the table. */
  function SeasonTable(data: seq<Row>): int -> SeasonEvents {
    (season: int) => SeasonEvents(season, TiersOf(Group(data, Leaderboard.SeasonOf, season)))
  }

  function ResultsOf(data: seq<Row>): Results {
    Results(Seqs.Map(Keys(data, Leaderboard.SeasonOf), SeasonTable(data)), Leaderboard.Seasons(data))
  }

  /** The inner loop of the results page: the event tables of one season's tiers. */
  method TierTablesFor(rows: seq<Row>) returns (tables: seq<TierEvents>)
    ensures tables == TiersOf(rows)
  {
    var order, groups := GroupBy(rows, Leaderboard.TierOf);
    tables := [];
    for j := 0 to |order|
      invariant tables == Seqs.Map(order[..j], TierTable(rows))
    {
      Seqs.TakeSnoc(order, j);
      Seqs.MapSnoc(order[..j], order[j], TierTable(rows));
      var events := SummariseEvents(groups[order[j]]);
      tables := tables + [TierEvents(order[j], events)];
    }
    assert order[..|order|] == order;
  }

  /**
   * The society results page: the rows grouped by season and then by tier,
   * each tier's events summarised, and the seasons listed in order.
   */
  method SocietyResults(data: seq<Row>) returns (results: Results)
    ensures results == ResultsOf(data)
  {
    var order, groups := GroupBy(data, Leaderboard.SeasonOf);
    var summary: seq<SeasonEvents> := [];
    for i := 0 to |order|
      invariant summary == Seqs.Map(order[..i], SeasonTable(data))
    {
      Seqs.TakeSnoc(order, i);
      Seqs.MapSnoc(order[..i], order[i], SeasonTable(data));
      var tables := TierTablesFor(groups[order[i]]);
      summary := summary + [SeasonEvents(order[i], tables)];
    }
    assert order[..|order|] == order;
    results := Results(summary, Seqs.SortBy(order, Leaderboard.IntLe));
  }

  /** Grouping by season and then by tier picks out the rows of that season and tier. */
  lemma {:induction false} NestedGroup(data: seq<Row>, season: int, tier: string)
    ensures Group(Group(data, Leaderboard.SeasonOf, season), Leaderboard.TierOf, tier) ==
            Leaderboard.InSeasonTier(data, season, tier)
  {
    if data != [] {
      var pre, r := data[..|data| - 1], data[|data| - 1];
      assert data == pre + [r];
      NestedGroup(pre, season, tier);
      GroupSnoc(pre, r, Leaderboard.SeasonOf, season);
      Seqs.FilterSnoc(pre, r, (x: Row) => x.season == season && x.tier == tier);
      var g := Group(pre, Leaderboard.SeasonOf, season);
      if r.season == season {
        GroupSnoc(g, r, Leaderboard.TierOf, tier);
      } else {
        assert g + [] == g;
      }
    }
  }

  lemma SummaryKeys(data: seq<Row>)
    ensures Seqs.Map(ResultsOf(data).summary, SeasonKey) == Keys(data, Leaderboard.SeasonOf)
  {
  }

  /** The results page lists each season that has rows, once, with `seasonsSorted` in increasing order. */
  lemma ResultsSeasons(data: seq<Row>, season: int)
    ensures var r := ResultsOf(data);
      && Seqs.Distinct(Seqs.Map(r.summary, SeasonKey))
      && (season in Seqs.Map(r.summary, SeasonKey) <==> exists k :: 0 <= k < |data| && data[k].season == season)
      && (season in r.seasonsSorted <==> exists k :: 0 <= k < |data| && data[k].season == season)
      && (forall i, j :: 0 <= i < j < |r.seasonsSorted| ==> r.seasonsSorted[i] < r.seasonsSorted[j])
  {
    SummaryKeys(data);
    KeysMembers(data, Leaderboard.SeasonOf);
    Leaderboard.SeasonsSpec(data);
  }

  /** Line `i` of the results page is the tier tables of the `i`-th season to appear. */
  lemma SeasonLine(data: seq<Row>, i: int)
    requires 0 <= i < |ResultsOf(data).summary|
    ensures var keys := Keys(data, Leaderboard.SeasonOf);
      i < |keys| && ResultsOf(data).summary[i] == SeasonEvents(keys[i], TiersOf(Group(data, Leaderboard.SeasonOf, keys[i])))
  {
  }

  /** Entry `j` of a season's tier tables is the event table of the `j`-th tier to appear. */
  lemma TierLine(g: seq<Row>, j: int)
    requires 0 <= j < |TiersOf(g)|
    ensures var tkeys := Keys(g, Leaderboard.TierOf);
      && Seqs.Map(TiersOf(g), TierKey) == tkeys
      && TiersOf(g)[j] == TierEvents(tkeys[j], EventsOf(Group(g, Leaderboard.TierOf, tkeys[j])))
  {
  }

  /** A tier listed under a season has rows in that season. */
  lemma TierHasRows(data: seq<Row>, season: int, tier: string)
    requires tier in Keys(Group(data, Leaderboard.SeasonOf, season), Leaderboard.TierOf)
    ensures exists k :: 0 <= k < |data| && data[k].season == season && data[k].tier == tier
  {
    var g := Group(data, Leaderboard.SeasonOf, season);
    KeysMembers(g, Leaderboard.TierOf);
    var x :| 0 <= x < |g| && g[x].tier == tier;
    GroupMembers(data, Leaderboard.SeasonOf, season);
    assert g[x] in g;
    var k :| 0 <= k < |data| && data[k] == g[x];
  }

  /**
   * Each cell of the results page is a tier that has rows in that season,
   * listed once, and shows the same event table as that tier's own page.
   */
  lemma ResultsCell(data: seq<Row>, i: int, j: int)
    requires 0 <= i < |ResultsOf(data).summary|
    requires 0 <= j < |ResultsOf(data).summary[i].tiers|
    ensures var se := ResultsOf(data).summary[i];
      var te := se.tiers[j];
      && Seqs.Distinct(Seqs.Map(se.tiers, TierKey))
      && (exists k :: 0 <= k < |data| && data[k].season == se.season && data[k].tier == te.tier)
      && te.events == EventsOf(Leaderboard.InSeasonTier(data, se.season, te.tier))
  {
    SeasonLine(data, i);
    var keys := Keys(data, Leaderboard.SeasonOf);
    var g := Group(data, Leaderboard.SeasonOf, keys[i]);
    TierLine(g, j);
    var tkeys := Keys(g, Leaderboard.TierOf);
    KeysMembers(g, Leaderboard.TierOf);
    assert tkeys[j] in tkeys;
    TierHasRows(data, keys[i], tkeys[j]);
    NestedGroup(data, keys[i], tkeys[j]);
  }

  // The event page.

  /** `r["tier"] or "Unclassified"`. */
  function Label(r: Row): string {
    if r.tier == "" then "Unclassified" else r.tier
  }

  /** What the event page shows: its participants by tier label, in order of first appearance. */
  datatype EventPage = EventPage(
    eventId: string,
    eventDate: string,
    tiers: seq<string>,
    participants: map<string, seq<Row>>,
    season: int)

  function EventPageOf(data: seq<Row>, id: string): Option<EventPage> {
    var rows := Group(data, EventIdOf, id);
    if rows == [] then None
    else
      var w := Winner(rows);
      var sorted := Seqs.SortBy(rows, ByRank);
      var labels := Keys(sorted, Label);
      Some(EventPage(id, w.eventDate, labels, map l | l in labels :: Group(sorted, Label, l), w.season))
  }

  /**
   * The event page: not found for an event without rows; otherwise its rows
   * sorted by rank and grouped by tier label, with the date and season of
   * the first row.
   */
  method ShowEvent(data: seq<Row>, id: string) returns (page: Option<EventPage>)
    ensures page == EventPageOf(data, id)
  {
    var rows := Group(data, EventIdOf, id);
    if rows == [] {
      return None;
    }
    var sorted := Seqs.SortBy(rows, ByRank);
    SortedWinner(rows);
    var tiers, participants := GroupBy(sorted, Label);
    assert participants == map l | l in tiers :: Group(sorted, Label, l);
    page := Some(EventPage(id, sorted[0].eventDate, tiers, participants, sorted[0].season));
  }

  /**
   * Not found exactly when no row has the event id; otherwise the date and
   * season shown are those of the event's first minimum-rank row.
   */
  lemma EventPageFound(data: seq<Row>, id: string)
    ensures EventPageOf(data, id).None? <==> forall k :: 0 <= k < |data| ==> data[k].eventId != id
    ensures EventPageOf(data, id).Some? ==>
      var g := Group(data, EventIdOf, id);
      var p := EventPageOf(data, id).value;
      exists k :: 0 <= k < |g| && p.season == g[k].season && p.eventDate == g[k].eventDate &&
        (forall j :: 0 <= j < |g| ==> g[k].rank <= g[j].rank) &&
        (forall j :: 0 <= j < k ==> g[k].rank < g[j].rank)
  {
    GroupMembers(data, EventIdOf, id);
    KeysMembers(data, EventIdOf);
    var g := Group(data, EventIdOf, id);
    if g != [] {
      var k := WinnerSpec(g);
    }
  }

  /** The label groups of a rank-sorted list of rows. */
  lemma LabelGroups(rows: seq<Row>, sorted: seq<Row>)
    requires forall r :: r in sorted <==> r in rows
    requires Seqs.SortedBy(sorted, ByRank)
    ensures var labels := Keys(sorted, Label);
      && Seqs.Distinct(labels)
      && (forall l | l in labels :: l != "")
      && (forall r | r in rows :: Label(r) in labels && r in Group(sorted, Label, Label(r)))
      && (forall l | l in labels ::
            Seqs.SortedBy(Group(sorted, Label, l), ByRank) &&
            forall r | r in Group(sorted, Label, l) :: r in rows && Label(r) == l)
  {
    var labels := Keys(sorted, Label);
    KeysMembers(sorted, Label);
    forall l | l in labels ensures l != "" {
      var x :| 0 <= x < |sorted| && Label(sorted[x]) == l;
    }
    forall r | r in rows ensures Label(r) in labels && r in Group(sorted, Label, Label(r)) {
      var x :| 0 <= x < |sorted| && sorted[x] == r;
      GroupMembers(sorted, Label, Label(r));
    }
    forall l | l in labels
      ensures Seqs.SortedBy(Group(sorted, Label, l), ByRank) &&
              forall r | r in Group(sorted, Label, l) :: r in rows && Label(r) == l
    {
      GroupMembers(sorted, Label, l);
      Seqs.FilterSorted(sorted, HasKey(Label, l), ByRank);
    }
  }

  /**
   * Every row of the event appears under its tier label (a blank tier under
   * "Unclassified"), each list holds only rows of the event with that
   * label, in rank order, and no label is listed twice. Each list is a
   * permutation of the event's rows with its label, so a row repeated in
   * the table is listed as often as it occurs.
   */
  lemma EventParticipants(data: seq<Row>, id: string)
    requires EventPageOf(data, id).Some?
    ensures var p := EventPageOf(data, id).value;
      && Seqs.Distinct(p.tiers)
      && (forall l :: l in p.participants <==> l in p.tiers)
      && (forall l | l in p.tiers :: l != "")
      && (forall r | r in data && r.eventId == id :: Label(r) in p.participants && r in p.participants[Label(r)])
      && (forall l | l in p.participants ::
            Seqs.SortedBy(p.participants[l], ByRank) &&
            forall r | r in p.participants[l] :: r in data && r.eventId == id && Label(r) == l)
      && (forall l | l in p.participants ::
            multiset(p.participants[l]) == multiset(Group(Group(data, EventIdOf, id), Label, l)))
  {
    var rows := Group(data, EventIdOf, id);
    var sorted := Seqs.SortBy(rows, ByRank);
    GroupMembers(data, EventIdOf, id);
    ByRankOrder();
    Seqs.SortBySorted(rows, ByRank);
    Seqs.SortByMembers(rows, ByRank);
    LabelGroups(rows, sorted);
    Seqs.SortByPerm(rows, ByRank);
    forall l {
      Seqs.FilterPerm(sorted, rows, HasKey(Label, l));
    }
  }
}
