/**
 * The player leaderboards of the results table: per-player totals over a
 * season (or one tier of a season), ranked by points and then wins, and the
 * rules that pick which season and tier a request shows.
 */
module Leaderboard {
  import opened Wrappers
  import opened Rows
  import opened PyText
  import Seqs
  import Rounding

  /** The running totals the aggregator keeps per player. */
  datatype Agg = Agg(
    playerName: string,
    wins: nat,
    podiums: nat,
    top10s: nat,
    eventsPlayed: nat,
    points: int,
    prSum: int,
    prCount: nat)

  /** One line of a leaderboard. */
  datatype Entry = Entry(
    playerId: Option<int>,
    playerName: string,
    points: int,
    wins: nat,
    podiums: nat,
    top10s: nat,
    eventsPlayed: nat,
    prettyRating: int)

  /** Whether the aggregator counts a row: the season board skips rows without a player id. */
  predicate Counts(r: Row, skipUnknown: bool) {
    !skipUnknown || r.playerId.Some?
  }

  /** The rows the aggregator counts, in order. */
  function Counted(rows: seq<Row>, skipUnknown: bool): seq<Row> {
    if rows == [] then []
    else
      var last := rows[|rows| - 1];
      Counted(rows[..|rows| - 1], skipUnknown) + (if Counts(last, skipUnknown) then [last] else [])
  }

  /** The player id of each row, in order. */
  function Ids(rows: seq<Row>): (ids: seq<Option<int>>)
    ensures |ids| == |rows|
    ensures forall k :: 0 <= k < |rows| ==> ids[k] == rows[k].playerId
  {
    if rows == [] then [] else Ids(rows[..|rows| - 1]) + [rows[|rows| - 1].playerId]
  }

  /** The keys of the aggregator's dict: each counted player once, in order of first row. */
  function Players(rows: seq<Row>, skipUnknown: bool): seq<Option<int>> {
    Seqs.Dedup(Ids(Counted(rows, skipUnknown)))
  }

  /** The rows of one player, in order. */
  function PlayerRows(rows: seq<Row>, id: Option<int>): seq<Row> {
    if rows == [] then []
    else
      var last := rows[|rows| - 1];
      PlayerRows(rows[..|rows| - 1], id) + (if last.playerId == id then [last] else [])
  }

  /** `Counted` is the filter the aggregation loop applies: the rows with an id, or all rows. */
  lemma {:induction false} CountedIsFilter(rows: seq<Row>, skipUnknown: bool)
    ensures Counted(rows, skipUnknown) == Seqs.Filter(rows, r => Counts(r, skipUnknown))
  {
    if rows != [] {
      CountedIsFilter(rows[..|rows| - 1], skipUnknown);
    }
  }

  /** `PlayerRows` is the player route's comprehension: the rows whose id is `id`. */
  lemma {:induction false} PlayerRowsIsFilter(rows: seq<Row>, id: Option<int>)
    ensures PlayerRows(rows, id) == Seqs.Filter(rows, (r: Row) => r.playerId == id)
  {
    if rows != [] {
      PlayerRowsIsFilter(rows[..|rows| - 1], id);
    }
  }

  /** How many rows place in the top `top` (`1 <= rank <= top`): wins, podiums and top-10s. */
  function RankCount(rows: seq<Row>, top: int): nat {
    if rows == [] then 0
    else RankCount(rows[..|rows| - 1], top) + (if 1 <= rows[|rows| - 1].rank <= top then 1 else 0)
  }

  function SumPoints(rows: seq<Row>): int {
    if rows == [] then 0 else SumPoints(rows[..|rows| - 1]) + rows[|rows| - 1].points
  }

  function SumPr(rows: seq<Row>): int {
    if rows == [] then 0 else SumPr(rows[..|rows| - 1]) + rows[|rows| - 1].eventPr
  }

  /** The dict entry created on a player's first row. */
  function Fresh(r: Row): Agg {
    Agg(r.playerName, 0, 0, 0, 0, 0, 0, 0)
  }

  /** The increments one row applies to its player's totals. */
  function Count(a: Agg, r: Row): Agg {
    Agg(a.playerName,
        a.wins + (if r.rank == 1 then 1 else 0),
        a.podiums + (if 1 <= r.rank <= 3 then 1 else 0),
        a.top10s + (if 1 <= r.rank <= 10 then 1 else 0),
        a.eventsPlayed + 1, a.points + r.points, a.prSum + r.eventPr, a.prCount + 1)
  }

  /** The totals the aggregator holds for a player once it has counted `rows`, the player's rows. */
  function AggOf(rows: seq<Row>): Agg {
    if rows == [] then Agg("", 0, 0, 0, 0, 0, 0, 0)
    else
      var pre := rows[..|rows| - 1];
      Count(if pre == [] then Fresh(rows[|rows| - 1]) else AggOf(pre), rows[|rows| - 1])
  }

  /**
   * The totals are what the route promises: the name of the first row,
   * wins, podiums and top-10s as counts of ranks 1, 1-3 and 1-10, one event
   * per row, and the sums of points and event ratings.
   */
  lemma {:induction false} AggOfTotals(rows: seq<Row>)
    ensures AggOf(rows) == Agg(if rows == [] then "" else rows[0].playerName,
                               RankCount(rows, 1), RankCount(rows, 3), RankCount(rows, 10),
                               |rows|, SumPoints(rows), SumPr(rows), |rows|)
  {
    if rows != [] {
      var pre := rows[..|rows| - 1];
      AggOfTotals(pre);
      if pre != [] {
        assert pre[0] == rows[0];
      }
    }
  }

  /** A leaderboard line from a player's totals; the rating is the mean event rating, rounded. */
  function ToEntry(id: Option<int>, a: Agg): Entry {
    Entry(id, a.playerName, a.points, a.wins, a.podiums, a.top10s, a.eventsPlayed,
          Rounding.MeanRating(a.prSum, a.prCount))
  }

  function EntryOf(id: Option<int>, rows: seq<Row>): Entry {
    ToEntry(id, AggOf(PlayerRows(rows, id)))
  }

  /** The leaderboard lines of `ids`, in the order of `ids`. */
  function Entries(ids: seq<Option<int>>, rows: seq<Row>): (es: seq<Entry>)
    ensures |es| == |ids|
  {
    if ids == [] then [] else Entries(ids[..|ids| - 1], rows) + [EntryOf(ids[|ids| - 1], rows)]
  }

  /** `a` may precede `b` on a board sorted by `(points, wins)` in reverse. */
  predicate ByPointsWins(a: Entry, b: Entry) {
    a.points > b.points || (a.points == b.points && a.wins >= b.wins)
  }

  /** The leaderboard of `rows`: one line per counted player, stably sorted by `(points, wins)` descending. */
  function Board(rows: seq<Row>, skipUnknown: bool): seq<Entry> {
    Seqs.SortBy(Entries(Players(rows, skipUnknown), Counted(rows, skipUnknown)), ByPointsWins)
  }

  lemma IdsSnoc(rows: seq<Row>, r: Row)
    ensures Ids(rows + [r]) == Ids(rows) + [r.playerId]
  {
    assert (rows + [r])[..|rows|] == rows;
  }

  lemma PlayerRowsSnoc(rows: seq<Row>, r: Row, id: Option<int>)
    ensures r.playerId == id ==> PlayerRows(rows + [r], id) == PlayerRows(rows, id) + [r]
    ensures r.playerId != id ==> PlayerRows(rows + [r], id) == PlayerRows(rows, id)
  {
    assert (rows + [r])[..|rows|] == rows;
    assert PlayerRows(rows, id) + [] == PlayerRows(rows, id);
  }

  /** A player has rows exactly when some row carries the player's id. */
  lemma {:induction false} PlayerRowsEmpty(rows: seq<Row>, id: Option<int>)
    ensures PlayerRows(rows, id) == [] <==> id !in Ids(rows)
  {
    if rows != [] {
      var pre := rows[..|rows| - 1];
      PlayerRowsEmpty(pre, id);
      assert rows == pre + [rows[|rows| - 1]];
      IdsSnoc(pre, rows[|rows| - 1]);
    }
  }

  /** Counting one more row of a player is one step of the aggregator loop. */
  lemma AggOfSnoc(rows: seq<Row>, r: Row)
    ensures AggOf(rows + [r]) == Count(if rows == [] then Fresh(r) else AggOf(rows), r)
  {
    assert (rows + [r])[..|rows|] == rows;
  }

  /** The aggregator's dict after counting `rows`: its keys in insertion order, and each player's totals. */
  ghost predicate Tallied(rows: seq<Row>, order: seq<Option<int>>, stats: map<Option<int>, Agg>) {
    && order == Seqs.Dedup(Ids(rows))
    && (forall id :: id in stats <==> id in order)
    && (forall id :: id in stats ==> stats[id] == AggOf(PlayerRows(rows, id)))
  }

  /** One iteration of the aggregator loop keeps the dict in step with the rows counted so far. */
  lemma TallyStep(rows: seq<Row>, order: seq<Option<int>>, stats: map<Option<int>, Agg>, r: Row,
                  order': seq<Option<int>>, stats': map<Option<int>, Agg>)
    requires Tallied(rows, order, stats)
    requires order' == if r.playerId in stats then order else order + [r.playerId]
    requires stats' == stats[r.playerId := Count(if r.playerId in stats then stats[r.playerId] else Fresh(r), r)]
    ensures Tallied(rows + [r], order', stats')
  {
    var pid := r.playerId;
    TallyOrder(rows, order, r, pid in stats);
    assert forall id :: id in stats' <==> id in order';
    assert forall id :: id in stats <==> id in Ids(rows);
    TallyValues(rows, stats, r);
  }

  lemma TallyOrder(rows: seq<Row>, order: seq<Option<int>>, r: Row, known: bool)
    requires order == Seqs.Dedup(Ids(rows)) && (known <==> r.playerId in order)
    ensures (if known then order else order + [r.playerId]) == Seqs.Dedup(Ids(rows + [r]))
  {
    IdsSnoc(rows, r);
    Seqs.DedupSnoc(Ids(rows), r.playerId);
  }

  lemma TallyValues(rows: seq<Row>, stats: map<Option<int>, Agg>, r: Row)
    requires forall id :: id in stats ==> stats[id] == AggOf(PlayerRows(rows, id))
    requires forall id :: id in stats <==> id in Ids(rows)
    ensures var pid := r.playerId;
      var stats' := stats[pid := Count(if pid in stats then stats[pid] else Fresh(r), r)];
      forall id :: id in stats' ==> stats'[id] == AggOf(PlayerRows(rows + [r], id))
  {
    var pid := r.playerId;
    var stats' := stats[pid := Count(if pid in stats then stats[pid] else Fresh(r), r)];
    forall id | id in stats' ensures stats'[id] == AggOf(PlayerRows(rows + [r], id)) {
      PlayerRowsSnoc(rows, r, id);
      if id == pid {
        PlayerRowsEmpty(rows, pid);
        AggOfSnoc(PlayerRows(rows, pid), r);
      } else {
        assert PlayerRows(rows + [r], id) == PlayerRows(rows, id);
      }
    }
  }

  /**
   * The tallying loop of the season and tier leaderboards: a `stats` dict
   * keyed by player id, filled row by row. The season board skips rows
   * without an id; the tier board lumps them under `None`.
   */
  method Tally(rows: seq<Row>, skipUnknown: bool) returns (order: seq<Option<int>>, stats: map<Option<int>, Agg>)
    ensures Tallied(Counted(rows, skipUnknown), order, stats)
  {
    order := [];
    stats := map[];
    for i := 0 to |rows|
      invariant Tallied(Counted(rows[..i], skipUnknown), order, stats)
    {
      var r := rows[i];
      ghost var c := Counted(rows[..i], skipUnknown);
      CountedSnoc(rows, i, skipUnknown);
      if Counts(r, skipUnknown) {
        var pid := r.playerId;
        ghost var (order0, stats0) := (order, stats);
        var agg := if pid in stats then stats[pid] else Fresh(r);
        if pid !in stats {
          order := order + [pid];
        }
        stats := stats[pid := Count(agg, r)];
        TallyStep(c, order0, stats0, r, order, stats);
      }
    }
    assert rows[..|rows|] == rows;
  }

  /**
   * A leaderboard route's aggregation: the tally, one line per dict entry
   * in dict order, then the stable sort by `(points, wins)` descending.
   */
  method Aggregate(rows: seq<Row>, skipUnknown: bool) returns (board: seq<Entry>)
    ensures board == Board(rows, skipUnknown)
  {
    var order, stats := Tally(rows, skipUnknown);
    ghost var c := Counted(rows, skipUnknown);
    var entries: seq<Entry> := [];
    for j := 0 to |order|
      invariant entries == Entries(order[..j], c)
    {
      LineOf(c, order, stats, order[j]);
      EntriesSnoc(order, j, c);
      entries := entries + [ToEntry(order[j], stats[order[j]])];
    }
    assert order[..|order|] == order;
    assert entries == Entries(Players(rows, skipUnknown), c);
    board := Seqs.SortBy(entries, ByPointsWins);
  }

  lemma CountedSnoc(rows: seq<Row>, i: int, skipUnknown: bool)
    requires 0 <= i < |rows|
    ensures Counts(rows[i], skipUnknown) ==>
      Counted(rows[..i + 1], skipUnknown) == Counted(rows[..i], skipUnknown) + [rows[i]]
    ensures !Counts(rows[i], skipUnknown) ==>
      Counted(rows[..i + 1], skipUnknown) == Counted(rows[..i], skipUnknown)
  {
    assert rows[..i + 1][..i] == rows[..i];
    assert Counted(rows[..i], skipUnknown) + [] == Counted(rows[..i], skipUnknown);
  }

  /** A key of the finished dict gives the line of its player. */
  lemma LineOf(rows: seq<Row>, order: seq<Option<int>>, stats: map<Option<int>, Agg>, id: Option<int>)
    requires Tallied(rows, order, stats) && id in order
    ensures id in stats && ToEntry(id, stats[id]) == EntryOf(id, rows)
  {
  }

  lemma EntriesSnoc(ids: seq<Option<int>>, j: int, rows: seq<Row>)
    requires 0 <= j < |ids|
    ensures Entries(ids[..j + 1], rows) == Entries(ids[..j], rows) + [EntryOf(ids[j], rows)]
  {
    assert ids[..j + 1][..j] == ids[..j];
  }

  lemma ByPointsWinsOrder()
    ensures Seqs.TotalPreorder(ByPointsWins)
  {
  }

  /** The board is non-increasing in `(points, wins)` and is a permutation of the per-player lines. */
  lemma BoardSorted(rows: seq<Row>, skipUnknown: bool)
    ensures var b := Board(rows, skipUnknown);
      forall i, j :: 0 <= i < j < |b| ==>
        b[i].points > b[j].points || (b[i].points == b[j].points && b[i].wins >= b[j].wins)
    ensures multiset(Board(rows, skipUnknown)) ==
            multiset(Entries(Players(rows, skipUnknown), Counted(rows, skipUnknown)))
  {
    ByPointsWinsOrder();
    Seqs.SortBySorted(Entries(Players(rows, skipUnknown), Counted(rows, skipUnknown)), ByPointsWins);
    Seqs.SortByPerm(Entries(Players(rows, skipUnknown), Counted(rows, skipUnknown)), ByPointsWins);
  }

  /** Lines tied on `(points, wins)` keep the order in which their players first appear. */
  lemma BoardStable(rows: seq<Row>, skipUnknown: bool, e: Entry)
    ensures Seqs.Peers(Board(rows, skipUnknown), e, ByPointsWins) ==
            Seqs.Peers(Entries(Players(rows, skipUnknown), Counted(rows, skipUnknown)), e, ByPointsWins)
  {
    ByPointsWinsOrder();
    Seqs.SortByStable(Entries(Players(rows, skipUnknown), Counted(rows, skipUnknown)), e, ByPointsWins);
  }

  function PlayerOf(e: Entry): Option<int> {
    e.playerId
  }

  lemma {:induction false} EntriesPlayers(ids: seq<Option<int>>, rows: seq<Row>)
    ensures Seqs.Map(Entries(ids, rows), PlayerOf) == ids
  {
    if ids != [] {
      var pre := ids[..|ids| - 1];
      EntriesPlayers(pre, rows);
      Seqs.MapSnoc(Entries(pre, rows), EntryOf(ids[|ids| - 1], rows), PlayerOf);
      assert ids == pre + [ids[|ids| - 1]];
    }
  }

  /** The counted rows are the rows the flag lets through. */
  lemma {:induction false} CountedMembers(rows: seq<Row>, skipUnknown: bool)
    ensures forall r :: r in Counted(rows, skipUnknown) <==> r in rows && Counts(r, skipUnknown)
  {
    if rows != [] {
      var pre := rows[..|rows| - 1];
      CountedMembers(pre, skipUnknown);
      assert rows == pre + [rows[|rows| - 1]];
    }
  }

  lemma IdsMembers(rows: seq<Row>)
    ensures forall id :: id in Ids(rows) <==> exists r :: r in rows && r.playerId == id
  {
    forall id ensures id in Ids(rows) <==> exists r :: r in rows && r.playerId == id {
      if id in Ids(rows) {
        var k :| 0 <= k < |rows| && Ids(rows)[k] == id;
        assert rows[k] in rows;
      }
      if exists r :: r in rows && r.playerId == id {
        var r :| r in rows && r.playerId == id;
        var k :| 0 <= k < |rows| && rows[k] == r;
        assert Ids(rows)[k] == id;
      }
    }
  }

  /** Exactly one line per player with a counted row: no player is missing or repeated. */
  lemma BoardPlayers(rows: seq<Row>, skipUnknown: bool)
    ensures Seqs.Distinct(Seqs.Map(Board(rows, skipUnknown), PlayerOf))
    ensures forall id :: id in Seqs.Map(Board(rows, skipUnknown), PlayerOf) <==>
      exists r :: r in rows && Counts(r, skipUnknown) && r.playerId == id
  {
    var c := Counted(rows, skipUnknown);
    var ids := Players(rows, skipUnknown);
    EntriesPlayers(ids, c);
    Seqs.SortByKeys(Entries(ids, c), ByPointsWins, PlayerOf);
    CountedMembers(rows, skipUnknown);
    IdsMembers(c);
  }

  lemma {:induction false} EntriesOf(ids: seq<Option<int>>, rows: seq<Row>)
    ensures forall e | e in Entries(ids, rows) :: e == EntryOf(e.playerId, rows) && e.playerId in ids
  {
    if ids != [] {
      var pre := ids[..|ids| - 1];
      EntriesOf(pre, rows);
      assert forall x | x in pre :: x in ids;
    }
  }

  /** A player's line: their totals, with `wins <= podiums <= top10s <= eventsPlayed`. */
  lemma EntryOfPlayer(id: Option<int>, rows: seq<Row>)
    requires id in Ids(rows)
    ensures var e := EntryOf(id, rows);
      var rs := PlayerRows(rows, id);
      && rs != [] && e.playerId == id && e.playerName == rs[0].playerName
      && e.eventsPlayed == |rs| && e.points == SumPoints(rs)
      && e.wins <= e.podiums <= e.top10s <= e.eventsPlayed
      && e.prettyRating == Rounding.RoundHalfEven(SumPr(rs), |rs|)
  {
    var rs := PlayerRows(rows, id);
    PlayerRowsEmpty(rows, id);
    AggOfTotals(rs);
    RankCountMonotone(rs, 1, 3);
    RankCountMonotone(rs, 3, 10);
    RankCountBound(rs, 10);
  }

  lemma {:induction false} RankCountMonotone(rows: seq<Row>, lo: int, hi: int)
    requires lo <= hi
    ensures RankCount(rows, lo) <= RankCount(rows, hi)
  {
    if rows != [] {
      RankCountMonotone(rows[..|rows| - 1], lo, hi);
    }
  }

  lemma {:induction false} RankCountBound(rows: seq<Row>, top: int)
    ensures RankCount(rows, top) <= |rows|
  {
    if rows != [] {
      RankCountBound(rows[..|rows| - 1], top);
    }
  }

  /**
   * Every line of the board holds its player's totals over the counted rows:
   * events played, summed points, the ordered win/podium/top-10 counts and
   * the half-to-even rounded mean event rating.
   */
  lemma BoardEntries(rows: seq<Row>, skipUnknown: bool)
    ensures forall e | e in Board(rows, skipUnknown) ::
      var rs := PlayerRows(Counted(rows, skipUnknown), e.playerId);
      && rs != [] && e.playerName == rs[0].playerName
      && e.eventsPlayed == |rs| && e.points == SumPoints(rs)
      && e.wins <= e.podiums <= e.top10s <= e.eventsPlayed
      && e.prettyRating == Rounding.RoundHalfEven(SumPr(rs), |rs|)
  {
    var c := Counted(rows, skipUnknown);
    var ids := Players(rows, skipUnknown);
    EntriesOf(ids, c);
    Seqs.SortByMembers(Entries(ids, c), ByPointsWins);
    forall e | e in Board(rows, skipUnknown)
      ensures var rs := PlayerRows(c, e.playerId);
        && rs != [] && e.playerName == rs[0].playerName
        && e.eventsPlayed == |rs| && e.points == SumPoints(rs)
        && e.wins <= e.podiums <= e.top10s <= e.eventsPlayed
        && e.prettyRating == Rounding.RoundHalfEven(SumPr(rs), |rs|)
    {
      assert e in Entries(ids, c);
      EntryOfPlayer(e.playerId, c);
    }
  }

  /** The events played, summed over the lines. */
  function SumEvents(es: seq<Entry>): int {
    if es == [] then 0 else es[0].eventsPlayed + SumEvents(es[1..])
  }

  lemma {:induction false} SumEventsAppend(a: seq<Entry>, b: seq<Entry>)
    ensures SumEvents(a + b) == SumEvents(a) + SumEvents(b)
  {
    if a != [] {
      assert (a + b)[1..] == a[1..] + b;
      SumEventsAppend(a[1..], b);
    } else {
      assert a + b == b;
    }
  }

  lemma {:induction false} InsertBySumEvents(x: Entry, s: seq<Entry>, le: (Entry, Entry) -> bool)
    ensures SumEvents(Seqs.InsertBy(x, s, le)) == x.eventsPlayed + SumEvents(s)
  {
    if s != [] && !le(x, s[0]) {
      InsertBySumEvents(x, s[1..], le);
    }
  }

  lemma {:induction false} SortBySumEvents(s: seq<Entry>, le: (Entry, Entry) -> bool)
    ensures SumEvents(Seqs.SortBy(s, le)) == SumEvents(s)
  {
    if s != [] {
      SortBySumEvents(s[1..], le);
      InsertBySumEvents(s[0], Seqs.SortBy(s[1..], le), le);
    }
  }

  /** One more row adds one event to the line of its player, if that player is listed. */
  lemma {:induction false} EntriesAddRow(ids: seq<Option<int>>, rows: seq<Row>, r: Row)
    requires Seqs.Distinct(ids)
    ensures SumEvents(Entries(ids, rows + [r])) ==
            SumEvents(Entries(ids, rows)) + (if r.playerId in ids then 1 else 0)
  {
    if ids != [] {
      var pre := ids[..|ids| - 1];
      var x := ids[|ids| - 1];
      assert Seqs.Distinct(pre);
      EntriesAddRow(pre, rows, r);
      SumEntriesSnoc(ids, rows);
      SumEntriesSnoc(ids, rows + [r]);
      EntryEventsSnoc(x, rows, r);
      assert ids == pre + [x];
      assert x !in pre;
    }
  }

  lemma SumEntriesSnoc(ids: seq<Option<int>>, rows: seq<Row>)
    requires ids != []
    ensures SumEvents(Entries(ids, rows)) ==
            SumEvents(Entries(ids[..|ids| - 1], rows)) + EntryOf(ids[|ids| - 1], rows).eventsPlayed
  {
    var pre := ids[..|ids| - 1];
    var e := EntryOf(ids[|ids| - 1], rows);
    SumEventsAppend(Entries(pre, rows), [e]);
    assert [e][1..] == [];
  }

  lemma EntryEventsSnoc(id: Option<int>, rows: seq<Row>, r: Row)
    ensures EntryOf(id, rows + [r]).eventsPlayed ==
            EntryOf(id, rows).eventsPlayed + (if r.playerId == id then 1 else 0)
  {
    PlayerRowsSnoc(rows, r, id);
    AggOfSnoc(PlayerRows(rows, id), r);
  }

  /** Lines for players without rows count no events. */
  lemma {:induction false} EntriesNoRows(ids: seq<Option<int>>)
    ensures SumEvents(Entries(ids, [])) == 0
  {
    if ids != [] {
      EntriesNoRows(ids[..|ids| - 1]);
      SumEntriesSnoc(ids, []);
    }
  }

  /** The lines of distinct players that cover every row together count each row once. */
  lemma {:induction false} EventsCover(ids: seq<Option<int>>, rows: seq<Row>)
    requires Seqs.Distinct(ids)
    requires forall k :: 0 <= k < |rows| ==> rows[k].playerId in ids
    ensures SumEvents(Entries(ids, rows)) == |rows|
  {
    if rows == [] {
      EntriesNoRows(ids);
    } else {
      var pre := rows[..|rows| - 1];
      var r := rows[|rows| - 1];
      assert forall k :: 0 <= k < |pre| ==> pre[k] == rows[k];
      EventsCover(ids, pre);
      EntriesAddRow(ids, pre, r);
      assert rows == pre + [r];
    }
  }

  /** The events played on the board add up to the number of counted rows. */
  lemma BoardEventsTotal(rows: seq<Row>, skipUnknown: bool)
    ensures SumEvents(Board(rows, skipUnknown)) == |Counted(rows, skipUnknown)|
  {
    var c := Counted(rows, skipUnknown);
    forall k | 0 <= k < |c| ensures c[k].playerId in Players(rows, skipUnknown) {
      assert Ids(c)[k] == c[k].playerId;
    }
    EventsCover(Players(rows, skipUnknown), c);
    SortBySumEvents(Entries(Players(rows, skipUnknown), c), ByPointsWins);
  }

  function SeasonOf(r: Row): int {
    r.season
  }

  function TierOf(r: Row): string {
    r.tier
  }

  predicate IntLe(a: int, b: int) {
    a <= b
  }

  /** `sorted({r["season"] for r in data})`. */
  function Seasons(data: seq<Row>): seq<int> {
    Seqs.SortBy(Seqs.Dedup(Seqs.Map(data, SeasonOf)), IntLe)
  }

  /** The rows of one season. */
  function InSeason(data: seq<Row>, season: int): seq<Row> {
    Seqs.Filter(data, (r: Row) => r.season == season)
  }

  /** The rows of one tier of one season. */
  function InSeasonTier(data: seq<Row>, season: int, tier: string): seq<Row> {
    Seqs.Filter(data, (r: Row) => r.season == season && r.tier == tier)
  }

  /** `sorted({r["tier"] for r in data if r["season"] == season})`. */
  function TiersIn(data: seq<Row>, season: int): seq<string> {
    Seqs.SortBy(Seqs.Dedup(Seqs.Map(InSeason(data, season), TierOf)), StrLe)
  }

  /** The season a season-board request shows: None (a 404) when there are no seasons. */
  function SelectSeason(seasons: seq<int>, requested: Option<int>): Option<int> {
    if seasons == [] then None
    else if requested.Some? && requested.value in seasons then requested
    else Some(seasons[|seasons| - 1])
  }

  /** The season list is strictly increasing and holds exactly the seasons of the rows. */
  lemma SeasonsSpec(data: seq<Row>)
    ensures var ss := Seasons(data);
      && (forall i, j :: 0 <= i < j < |ss| ==> ss[i] < ss[j])
      && (forall s :: s in ss <==> exists k :: 0 <= k < |data| && data[k].season == s)
  {
    Seqs.SortedSet(Seqs.Map(data, SeasonOf), IntLe);
    var ss := Seasons(data);
    forall i, j | 0 <= i < j < |ss| ensures ss[i] < ss[j] {
      assert ss[i] <= ss[j] && ss[i] != ss[j];
    }
    forall s ensures s in ss <==> exists k :: 0 <= k < |data| && data[k].season == s {
      if s in Seqs.Map(data, SeasonOf) {
        var k :| 0 <= k < |data| && Seqs.Map(data, SeasonOf)[k] == s;
        assert data[k].season == s;
      }
      if exists k :: 0 <= k < |data| && data[k].season == s {
        var k :| 0 <= k < |data| && data[k].season == s;
        assert Seqs.Map(data, SeasonOf)[k] == s;
      }
    }
  }

  /**
   * Season selection: not found exactly when the table is empty; a season
   * that has rows is shown when asked for; otherwise the latest season is.
   */
  lemma SelectSeasonSpec(data: seq<Row>, requested: Option<int>)
    ensures SelectSeason(Seasons(data), requested).None? <==> data == []
    ensures requested.Some? && (exists k :: 0 <= k < |data| && data[k].season == requested.value) ==>
      SelectSeason(Seasons(data), requested) == requested
    ensures data != [] && (requested.None? || forall k :: 0 <= k < |data| ==> data[k].season != requested.value) ==>
      var s := SelectSeason(Seasons(data), requested).value;
      && (exists k :: 0 <= k < |data| && data[k].season == s)
      && (forall k :: 0 <= k < |data| ==> data[k].season <= s)
  {
    SeasonsSpec(data);
    if data != [] {
      assert data[0].season in Seasons(data);
      LatestSeason(data);
    }
  }

  /** The last season in the list is the latest season of any row. */
  lemma LatestSeason(data: seq<Row>)
    requires data != []
    ensures var ss := Seasons(data);
      && ss != []
      && (exists k :: 0 <= k < |data| && data[k].season == ss[|ss| - 1])
      && (forall k :: 0 <= k < |data| ==> data[k].season <= ss[|ss| - 1])
  {
    SeasonsSpec(data);
    var ss := Seasons(data);
    assert data[0].season in ss;
    IncreasingLast(ss);
    var last := ss[|ss| - 1];
    assert last in ss;
    forall k | 0 <= k < |data| ensures data[k].season <= last {
      assert data[k].season in ss;
    }
  }

  lemma IncreasingLast(ss: seq<int>)
    requires ss != [] && forall i, j :: 0 <= i < j < |ss| ==> ss[i] < ss[j]
    ensures forall x :: x in ss ==> x <= ss[|ss| - 1]
  {
  }

  /** A tier is listed for a season exactly when some row of that season has it. */
  lemma TiersInSpec(data: seq<Row>, season: int, tier: string)
    ensures tier in TiersIn(data, season) <==>
      exists k :: 0 <= k < |data| && data[k].season == season && data[k].tier == tier
  {
    StrLeIsTotalPreorder();
    var rs := InSeason(data, season);
    Seqs.SortedSet(Seqs.Map(rs, TierOf), StrLe);
    if tier in Seqs.Map(rs, TierOf) {
      var i :| 0 <= i < |rs| && Seqs.Map(rs, TierOf)[i] == tier;
      assert rs[i] in rs;
      var k :| 0 <= k < |data| && data[k] == rs[i];
    }
    if exists k :: 0 <= k < |data| && data[k].season == season && data[k].tier == tier {
      var k :| 0 <= k < |data| && data[k].season == season && data[k].tier == tier;
      assert data[k] in data;
      assert data[k] in rs;
      var i :| 0 <= i < |rs| && rs[i] == data[k];
      assert Seqs.Map(rs, TierOf)[i] == tier;
    }
  }

  /** What a leaderboard page shows. */
  datatype Page = Page(
    board: seq<Entry>,
    seasons: seq<int>,
    selectedSeason: int,
    tiers: seq<string>,
    selectedTier: Option<string>)

  /**
   * The season leaderboard: not found on an empty table; otherwise the
   * requested season if it has rows, else the latest, aggregated over the
   * rows with a player id.
   */
  method SeasonLeaderboard(data: seq<Row>, seasonId: Option<int>) returns (page: Option<Page>)
    ensures page.None? <==> data == []
    ensures page.Some? ==>
      && Some(page.value.selectedSeason) == SelectSeason(Seasons(data), seasonId)
      && page.value.seasons == Seasons(data)
      && page.value.tiers == TiersIn(data, page.value.selectedSeason)
      && page.value.board == Board(InSeason(data, page.value.selectedSeason), true)
      && page.value.selectedTier == None
  {
    var seasons := Seasons(data);
    SelectSeasonSpec(data, seasonId);
    var selected := SelectSeason(seasons, seasonId);
    if selected.None? {
      return None;
    }
    var board := Aggregate(InSeason(data, selected.value), true);
    page := Some(Page(board, seasons, selected.value, TiersIn(data, selected.value), None));
  }

  /**
   * The leaderboard of one tier of one season: not found unless some row
   * has that season and tier; rows without a player id are counted too.
   */
  method TierLeaderboard(data: seq<Row>, seasonId: int, tierName: string) returns (page: Option<Page>)
    ensures page.None? <==>
      forall k :: 0 <= k < |data| ==> !(data[k].season == seasonId && data[k].tier == tierName)
    ensures page.Some? ==>
      && page.value.seasons == Seasons(data)
      && page.value.selectedSeason == seasonId
      && page.value.tiers == TiersIn(data, seasonId)
      && page.value.board == Board(InSeasonTier(data, seasonId, tierName), false)
      && page.value.selectedTier == Some(tierName)
  {
    var seasons := Seasons(data);
    SeasonsSpec(data);
    TiersInSpec(data, seasonId, tierName);
    if seasonId !in seasons {
      return None;
    }
    var tiers := TiersIn(data, seasonId);
    if tierName !in tiers {
      return None;
    }
    var board := Aggregate(InSeasonTier(data, seasonId, tierName), false);
    page := Some(Page(board, seasons, seasonId, tiers, Some(tierName)));
  }
}
