/**
 * The typed records the statistics engine works on, and the coercion that
 * turns the cells of a tabular file into them.
 *
 * A raw row is what `csv.DictReader` yields, restricted to the columns the
 * loaders read: a map from column to cell text, where a column missing from
 * the header is absent and a row shorter than the header maps its missing
 * trailing columns to `None`.
 */
module Rows {
  import opened Wrappers
  import opened PyText
  import Seqs

  /** The columns the loaders read, across the five tables. */
  datatype Column =
    | PlayerId | PlayerName | EventId | EventDate | Score | Rank | Points | EventPr | Season | Tier
    | MatchId | Phase | Date | WinnerId | LoserId | PointDiff
    | TeamId | TeamName | Conference | Player1 | Player2

  /** The header text of each column, as it appears in the files. */
  function Header(c: Column): string {
    match c
    case PlayerId => "player_id"
    case PlayerName => "player_name"
    case EventId => "event_id"
    case EventDate => "event_date"
    case Score => "score"
    case Rank => "rank"
    case Points => "points"
    case EventPr => "event_pr"
    case Season => "season"
    case Tier => "tier"
    case MatchId => "match_id"
    case Phase => "phase"
    case Date => "date"
    case WinnerId => "winner_id"
    case LoserId => "loser_id"
    case PointDiff => "point_diff"
    case TeamId => "team_id"
    case TeamName => "team_name"
    case Conference => "conference"
    case Player1 => "player1"
    case Player2 => "player2"
  }

  type RawRow = map<Column, Option<string>>

  /** `row.get(key)`: the cell text, or None for an absent column or a short row. */
  function Cell(raw: RawRow, key: Column): Option<string> {
    if key in raw then raw[key] else None
  }

  /** One player's entry in one event of the main results table. */
  datatype Row = Row(
    playerId: Option<int>,
    playerName: string,
    eventId: string,
    eventDate: string,
    score: int,
    rank: int,
    points: int,
    eventPr: int,
    season: int,
    tier: string)

  /** `int(row[key])` with every exception turned into None (the `player_id` rule). */
  function IntOrNone(raw: RawRow, key: Column): Option<int> {
    match Cell(raw, key)
    case None => None
    case Some(t) => ParseInt(t)
  }

  /** `int(row.get(key, 0))` with every exception turned into 0. */
  function IntOrZero(raw: RawRow, key: Column): int {
    IntOrNone(raw, key).GetOr(0)
  }

  /** `(row.get(key) or "").strip()`. */
  function Text(raw: RawRow, key: Column): string {
    Strip(Cell(raw, key).GetOr(""))
  }

  /** The field-by-field normalisation of one results row; no row is ever rejected. */
  function CoerceRow(raw: RawRow): (r: Row)
    ensures Stripped(r.playerName) && Stripped(r.eventId) && Stripped(r.eventDate) && Stripped(r.tier)
  {
    Row(
      IntOrNone(raw, PlayerId),
      Text(raw, PlayerName),
      Text(raw, EventId),
      Text(raw, EventDate),
      IntOrZero(raw, Score),
      IntOrZero(raw, Rank),
      IntOrZero(raw, Points),
      IntOrZero(raw, EventPr),
      IntOrZero(raw, Season),
      Text(raw, Tier))
  }

  /** The loading loop of the results file: every raw row, in order, coerced. */
  method CoerceRows(raws: seq<RawRow>) returns (rows: seq<Row>)
    ensures |rows| == |raws|
    ensures forall i :: 0 <= i < |raws| ==> rows[i] == CoerceRow(raws[i])
  {
    rows := [];
    for i := 0 to |raws|
      invariant |rows| == i
      invariant forall k :: 0 <= k < i ==> rows[k] == CoerceRow(raws[k])
    {
      rows := rows + [CoerceRow(raws[i])];
    }
  }

  /** How a typed row is written back to the table (an unknown id as an empty cell). */
  function Render(r: Row): RawRow {
    map[
      PlayerId := Some(match r.playerId case Some(id) => DecimalString(id) case None => ""),
      PlayerName := Some(r.playerName),
      EventId := Some(r.eventId),
      EventDate := Some(r.eventDate),
      Score := Some(DecimalString(r.score)),
      Rank := Some(DecimalString(r.rank)),
      Points := Some(DecimalString(r.points)),
      EventPr := Some(DecimalString(r.eventPr)),
      Season := Some(DecimalString(r.season)),
      Tier := Some(r.tier)]
  }

  /** Coercion loses nothing from a row whose text fields carry no edge whitespace. */
  lemma CoerceRender(r: Row)
    requires Stripped(r.playerName) && Stripped(r.eventId) && Stripped(r.eventDate) && Stripped(r.tier)
    ensures CoerceRow(Render(r)) == r
  {
    CoerceCells(Render(r), r);
  }

  /** Any row whose cells are the rendering of `r` coerces back to `r`. */
  lemma CoerceCells(raw: RawRow, r: Row)
    requires Cell(raw, PlayerId) == Some(match r.playerId case Some(id) => DecimalString(id) case None => "")
    requires Cell(raw, Score) == Some(DecimalString(r.score)) && Cell(raw, Rank) == Some(DecimalString(r.rank))
    requires Cell(raw, Points) == Some(DecimalString(r.points)) && Cell(raw, EventPr) == Some(DecimalString(r.eventPr))
    requires Cell(raw, Season) == Some(DecimalString(r.season))
    requires Cell(raw, PlayerName) == Some(r.playerName) && Cell(raw, EventId) == Some(r.eventId)
    requires Cell(raw, EventDate) == Some(r.eventDate) && Cell(raw, Tier) == Some(r.tier)
    requires Stripped(r.playerName) && Stripped(r.eventId) && Stripped(r.eventDate) && Stripped(r.tier)
    ensures CoerceRow(raw) == r
  {
    if r.playerId.Some? {
      IntCell(raw, PlayerId, r.playerId.value);
    } else {
      assert Strip("") == "";
    }
    IntCell(raw, Score, r.score);
    IntCell(raw, Rank, r.rank);
    IntCell(raw, Points, r.points);
    IntCell(raw, EventPr, r.eventPr);
    IntCell(raw, Season, r.season);
    StrippedIsFixed(r.playerName, IsSpace);
    StrippedIsFixed(r.eventId, IsSpace);
    StrippedIsFixed(r.eventDate, IsSpace);
    StrippedIsFixed(r.tier, IsSpace);
  }

  lemma IntCell(raw: RawRow, c: Column, n: int)
    requires Cell(raw, c) == Some(DecimalString(n))
    ensures IntOrNone(raw, c) == Some(n)
  {
    ParseIntRoundTrip(n);
  }

  /** One 1v1 or 2v2 fixture; a missing `pointDiff` means it has no result yet. */
  datatype Match = Match(
    matchId: int,
    season: int,
    phase: Option<string>,
    date: Option<string>,
    winnerId: int,
    loserId: int,
    pointDiff: Option<int>)

  /** Which of the two match loaders: the 1v1 one tolerates a short row's `None` date. */
  datatype MatchFile = Matches2v2 | Matches1v1

  /** `(... ).strip() or None`: a blank date is no date. */
  function DateOf(raw: RawRow): (d: Option<string>)
    ensures d.Some? ==> d.value != [] && Stripped(d.value)
  {
    var t := Text(raw, Date);
    if t == [] then None else Some(t)
  }

  /**
   * One match row as the loader builds it; None stands for the exception
   * the loader raises (a missing column, `None.strip()` in the 2v2 loader,
   * or an unguarded `int()` that fails).
   */
  function ParseMatch(raw: RawRow, file: MatchFile): Option<Match>
  {
    if Phase !in raw then None
    else if file == Matches2v2 && Date in raw && raw[Date].None? then None
    else
      match (IntOrNone(raw, MatchId), IntOrNone(raw, Season),
             IntOrNone(raw, WinnerId), IntOrNone(raw, LoserId))
      case (Some(id), Some(season), Some(w), Some(l)) =>
        Some(Match(id, season, raw[Phase], DateOf(raw), w, l, IntOrNone(raw, PointDiff)))
      case _ => None
  }

  /**
   * How a match is written to its file: a missing date or point difference
   * as an empty cell.
   */
  function RenderMatch(m: Match): RawRow {
    map[
      MatchId := Some(DecimalString(m.matchId)),
      Season := Some(DecimalString(m.season)),
      Phase := m.phase,
      Date := Some(m.date.GetOr("")),
      WinnerId := Some(DecimalString(m.winnerId)),
      LoserId := Some(DecimalString(m.loserId)),
      PointDiff := Some(match m.pointDiff case Some(d) => DecimalString(d) case None => "")]
  }

  /**
   * Either loader reads a written match back unchanged, provided its date
   * is absent or a non-empty text without edge whitespace: a blank cell
   * loads as no date and an empty point difference as no result.
   */
  lemma ParseRenderMatch(m: Match, file: MatchFile)
    requires m.date.None? || (m.date.value != [] && Stripped(m.date.value))
    ensures ParseMatch(RenderMatch(m), file) == Some(m)
  {
    var raw := RenderMatch(m);
    RenderCells(m);
    IntCell(raw, MatchId, m.matchId);
    IntCell(raw, Season, m.season);
    IntCell(raw, WinnerId, m.winnerId);
    IntCell(raw, LoserId, m.loserId);
    DiffCell(raw, m.pointDiff);
    DateCell(raw, m.date);
    MatchCells(raw, m, file);
  }

  /** The cells of a written match. */
  lemma RenderCells(m: Match)
    ensures var raw := RenderMatch(m);
      && Phase in raw && raw[Phase] == m.phase
      && Date in raw && raw[Date] == Some(m.date.GetOr(""))
      && Cell(raw, MatchId) == Some(DecimalString(m.matchId))
      && Cell(raw, Season) == Some(DecimalString(m.season))
      && Cell(raw, WinnerId) == Some(DecimalString(m.winnerId))
      && Cell(raw, LoserId) == Some(DecimalString(m.loserId))
      && Cell(raw, PointDiff) == Some(match m.pointDiff case Some(d) => DecimalString(d) case None => "")
  {
  }

  /** A row whose cells read as the fields of `m`, with a date cell present, parses to `m`. */
  lemma MatchCells(raw: RawRow, m: Match, file: MatchFile)
    requires Phase in raw && raw[Phase] == m.phase
    requires Date in raw && raw[Date].Some?
    requires IntOrNone(raw, MatchId) == Some(m.matchId) && IntOrNone(raw, Season) == Some(m.season)
    requires IntOrNone(raw, WinnerId) == Some(m.winnerId) && IntOrNone(raw, LoserId) == Some(m.loserId)
    requires IntOrNone(raw, PointDiff) == m.pointDiff && DateOf(raw) == m.date
    ensures ParseMatch(raw, file) == Some(m)
  {
  }

  /** A point difference cell written as decimal text, or left empty, reads back as written. */
  lemma DiffCell(raw: RawRow, d: Option<int>)
    requires Cell(raw, PointDiff) == Some(match d case Some(x) => DecimalString(x) case None => "")
    ensures IntOrNone(raw, PointDiff) == d
  {
    if d.Some? {
      IntCell(raw, PointDiff, d.value);
    } else {
      assert StripBy("", IsIntSpace) == "";
    }
  }

  /** A date cell holding a stripped date, or left empty, reads back as written. */
  lemma DateCell(raw: RawRow, date: Option<string>)
    requires date.None? || (date.value != [] && Stripped(date.value))
    requires Cell(raw, Date) == Some(date.GetOr(""))
    ensures DateOf(raw) == date
  {
    if date.Some? {
      StrippedIsFixed(date.value, IsSpace);
    } else {
      assert Strip("") == "";
    }
  }

  /** The rows of a match file, each parsed; None if any row raises. */
  function ParseMatches(raws: seq<RawRow>, file: MatchFile): Option<seq<Match>>
  {
    Seqs.AllOrNone(raws, raw => ParseMatch(raw, file))
  }

  /** The match loader's loop: all rows parsed, or the first failure aborts the load. */
  method LoadMatches(raws: seq<RawRow>, file: MatchFile) returns (ms: Option<seq<Match>>)
    ensures ms.Some? <==> forall i :: 0 <= i < |raws| ==> ParseMatch(raws[i], file).Some?
    ensures ms.Some? ==> |ms.value| == |raws|
    ensures ms.Some? ==> forall i :: 0 <= i < |raws| ==> Some(ms.value[i]) == ParseMatch(raws[i], file)
    ensures ms == ParseMatches(raws, file)
  {
    var acc: seq<Match> := [];
    for i := 0 to |raws|
      invariant ParseMatches(raws[..i], file) == Some(acc)
    {
      assert raws[..i + 1][..i] == raws[..i];
      var m := ParseMatch(raws[i], file);
      if m.None? {
        Seqs.AllOrNonePrefix(raws, i + 1, raw => ParseMatch(raw, file));
        Seqs.AllOrNoneSpec(raws, raw => ParseMatch(raw, file));
        return None;
      }
      acc := acc + [m.value];
    }
    assert raws[..|raws|] == raws;
    Seqs.AllOrNoneSpec(raws, raw => ParseMatch(raw, file));
    ms := Some(acc);
  }

  /** A 2v2 team or a 1v1 player: its display name, conference and (teams only) members. */
  datatype Entity = Entity(name: Option<string>, conference: Option<string>, members: seq<Option<string>>)

  datatype RosterFile = Teams2v2 | Players1v1

  /**
   * A roster as the loaders leave it: a Python dict from id to entity,
   * `ids` holding its keys in insertion order.
   */
  datatype Roster = Roster(ids: seq<int>, info: map<int, Entity>)

  ghost predicate ValidRoster(r: Roster) {
    Seqs.Distinct(r.ids) && forall id :: id in r.info <==> id in r.ids
  }

  /** One roster row as `(id, entity)`, or None for the KeyError or ValueError it raises. */
  function ParseEntity(raw: RawRow, file: RosterFile): Option<(int, Entity)>
  {
    match file
    case Teams2v2 =>
      if TeamName in raw && Conference in raw && Player1 in raw && Player2 in raw then
        match IntOrNone(raw, TeamId)
        case Some(id) => Some((id, Entity(raw[TeamName], raw[Conference], [raw[Player1], raw[Player2]])))
        case None => None
      else None
    case Players1v1 =>
      match IntOrNone(raw, PlayerId)
      case Some(id) =>
        if PlayerName in raw && Conference in raw then
          Some((id, Entity(raw[PlayerName], raw[Conference], [])))
        else None
      case None => None
  }

  /** `d[id] = e` on an insertion-ordered dict: a new key goes last, an old key keeps its place. */
  function Put(r: Roster, id: int, e: Entity): Roster {
    Roster(if id in r.info then r.ids else r.ids + [id], r.info[id := e])
  }

  /** The dict a sequence of `d[id] = e` assignments builds, starting from `{}`. */
  function RosterOf(entries: seq<(int, Entity)>): Roster {
    if entries == [] then Roster([], map[])
    else
      var last := entries[|entries| - 1];
      Put(RosterOf(entries[..|entries| - 1]), last.0, last.1)
  }

  function IdsOf(entries: seq<(int, Entity)>): (ids: seq<int>)
    ensures |ids| == |entries|
    ensures forall k :: 0 <= k < |entries| ==> ids[k] == entries[k].0
  {
    if entries == [] then [] else IdsOf(entries[..|entries| - 1]) + [entries[|entries| - 1].0]
  }

  /** The dict's keys are exactly the ids assigned, each once, in order of first assignment. */
  lemma {:induction false} RosterOfIds(entries: seq<(int, Entity)>)
    ensures RosterOf(entries).ids == Seqs.Dedup(IdsOf(entries))
    ensures forall id :: id in RosterOf(entries).info <==> id in IdsOf(entries)
  {
    if entries != [] {
      var pre := entries[..|entries| - 1];
      RosterOfIds(pre);
      assert IdsOf(entries)[..|entries| - 1] == IdsOf(pre);
    }
  }

  /** Every roster the loaders build is a well-formed insertion-ordered dict. */
  lemma RosterOfValid(entries: seq<(int, Entity)>)
    ensures ValidRoster(RosterOf(entries))
  {
    RosterOfIds(entries);
  }

  /** An id maps to the entity of its last row: a later duplicate row overwrites an earlier one. */
  lemma {:induction false} RosterOfLastWins(entries: seq<(int, Entity)>, k: int)
    requires 0 <= k < |entries|
    requires forall j :: k < j < |entries| ==> entries[j].0 != entries[k].0
    ensures entries[k].0 in RosterOf(entries).info
    ensures RosterOf(entries).info[entries[k].0] == entries[k].1
  {
    if k < |entries| - 1 {
      var pre := entries[..|entries| - 1];
      assert pre[k] == entries[k];
      assert forall j :: k < j < |pre| ==> pre[j].0 != pre[k].0 by {
        forall j | k < j < |pre| ensures pre[j].0 != pre[k].0 {
          assert pre[j] == entries[j];
        }
      }
      RosterOfLastWins(pre, k);
    }
  }

  /** The rows of a roster file, each as `(id, entity)`; None if any row raises. */
  function ParseEntities(raws: seq<RawRow>, file: RosterFile): Option<seq<(int, Entity)>>
  {
    Seqs.AllOrNone(raws, raw => ParseEntity(raw, file))
  }

  /** A roster loader's loop: `d[int(r["..._id"])] = {...}` for every row, or the exception. */
  method LoadRoster(raws: seq<RawRow>, file: RosterFile) returns (roster: Option<Roster>)
    ensures roster.Some? <==> ParseEntities(raws, file).Some?
    ensures roster.Some? ==> roster.value == RosterOf(ParseEntities(raws, file).value)
  {
    var d := Roster([], map[]);
    ghost var entries: seq<(int, Entity)> := [];
    for i := 0 to |raws|
      invariant ParseEntities(raws[..i], file) == Some(entries)
      invariant d == RosterOf(entries)
    {
      assert raws[..i + 1][..i] == raws[..i];
      var e := ParseEntity(raws[i], file);
      if e.None? {
        Seqs.AllOrNonePrefix(raws, i + 1, raw => ParseEntity(raw, file));
        return None;
      }
      var (id, info) := e.value;
      d := Put(d, id, info);
      entries := entries + [e.value];
    }
    assert raws[..|raws|] == raws;
    roster := Some(d);
  }
}
