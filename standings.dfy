/**
 * The conference tables of the 2v2 and 1v1 leagues (both routes run the same
 * code) and the 1v1 player profile.
 *
 * A match with no point difference is a fixture not yet played: it is shown
 * but never counted. A counted match gives its winner a win and `+d`, and its
 * loser a loss and `-d`.
 */
module Standings {
  import opened Wrappers
  import opened Rows
  import opened PyText
  import Seqs

  /** The four counters a table keeps per team or player. */
  datatype Record = Record(wins: int, losses: int, played: int, pointDiff: int)

  const Zero := Record(0, 0, 0, 0)

  function Add(a: Record, b: Record): Record {
    Record(a.wins + b.wins, a.losses + b.losses, a.played + b.played, a.pointDiff + b.pointDiff)
  }

  lemma AddZero(a: Record)
    ensures Add(a, Zero) == a && Add(Zero, a) == a
  {
  }

  /**
   * What a match adds to a line that won it (`won`) and/or lost it (`lost`):
   * nothing for a fixture, else a win by `d` and a loss by `d`.
   */
  function Credited(m: Match, won: bool, lost: bool): Record {
    if m.pointDiff.None? then Zero
    else
      var d := m.pointDiff.value;
      Record(if won then 1 else 0, if lost then 1 else 0,
             (if won then 1 else 0) + (if lost then 1 else 0),
             (if won then d else 0) - (if lost then d else 0))
  }

  /** What one match adds to the line of `id` (a match recorded against itself credits both). */
  function Delta(id: int, m: Match): Record {
    Credited(m, m.winnerId == id, m.loserId == id)
  }

  /** The line of `id` after the matches `ms`, counted from zeros. */
  function RecordOf(ms: seq<Match>, id: int): Record {
    if ms == [] then Zero else Add(RecordOf(ms[..|ms| - 1], id), Delta(id, ms[|ms| - 1]))
  }

  lemma RecordOfSnoc(ms: seq<Match>, m: Match, id: int)
    ensures RecordOf(ms + [m], id) == Add(RecordOf(ms, id), Delta(id, m))
  {
    assert (ms + [m])[..|ms|] == ms;
  }

  predicate Completed(m: Match) {
    m.pointDiff.Some?
  }

  /** Every line balances: each counted match is a win or a loss of the entity. */
  lemma {:induction false} RecordOfBalanced(ms: seq<Match>, id: int)
    ensures var r := RecordOf(ms, id); 0 <= r.wins && 0 <= r.losses && r.wins + r.losses == r.played
  {
    if ms != [] {
      RecordOfBalanced(ms[..|ms| - 1], id);
    }
  }

  /** The matches `id` won, and those it lost, among the counted ones. */
  function WonBy(ms: seq<Match>, id: int): seq<Match> {
    Seqs.Filter(ms, (m: Match) => Completed(m) && m.winnerId == id)
  }

  function LostBy(ms: seq<Match>, id: int): seq<Match> {
    Seqs.Filter(ms, (m: Match) => Completed(m) && m.loserId == id)
  }

  /** Wins and losses count exactly the completed matches the entity won and lost. */
  lemma {:induction false} RecordOfCounts(ms: seq<Match>, id: int)
    ensures RecordOf(ms, id).wins == |WonBy(ms, id)|
    ensures RecordOf(ms, id).losses == |LostBy(ms, id)|
  {
    if ms != [] {
      var pre, m := ms[..|ms| - 1], ms[|ms| - 1];
      assert ms == pre + [m];
      RecordOfCounts(pre, id);
      Seqs.FilterSnoc(pre, m, (m: Match) => Completed(m) && m.winnerId == id);
      Seqs.FilterSnoc(pre, m, (m: Match) => Completed(m) && m.loserId == id);
    }
  }

  /** Fixtures do not count: the line is the same over the completed matches alone. */
  lemma {:induction false} RecordOfCompleted(ms: seq<Match>, id: int)
    ensures RecordOf(ms, id) == RecordOf(Seqs.Filter(ms, Completed), id)
  {
    if ms != [] {
      var pre, m := ms[..|ms| - 1], ms[|ms| - 1];
      assert ms == pre + [m];
      var done := Seqs.Filter(pre, Completed);
      RecordOfCompleted(pre, id);
      Seqs.FilterSnoc(pre, m, Completed);
      RecordOfSnoc(pre, m, id);
      if Completed(m) {
        RecordOfSnoc(done, m, id);
      } else {
        assert Seqs.Filter(ms, Completed) == done + [];
        assert done + [] == done;
      }
    }
  }

  // ---------------------------------------------------------------------
  // Conferences

  /** The conference of `id` in the roster. */
  function ConferenceOf(roster: Roster, id: int): Option<string> {
    if id in roster.info then roster.info[id].conference else None
  }

  function NameOf(roster: Roster, id: int): Option<string> {
    if id in roster.info then roster.info[id].name else None
  }

  /** Python's `<=` on the conference cells, where a short row leaves `None`. */
  predicate ConfLe(a: Option<string>, b: Option<string>) {
    a.None? || (b.Some? && StrLe(a.value, b.value))
  }

  lemma ConfLeIsTotalPreorder()
    ensures Seqs.TotalPreorder(ConfLe)
  {
    forall a, b ensures ConfLe(a, b) || ConfLe(b, a) {
      if a.Some? && b.Some? {
        StrLeTotal(a.value, b.value);
      }
    }
    forall a, b, c | ConfLe(a, b) && ConfLe(b, c) ensures ConfLe(a, c) {
      if a.Some? {
        StrLeTransitive(a.value, b.value, c.value);
      }
    }
  }

  /** `sorted({info["conference"] for info in roster.values()})`, when it does not raise. */
  function ConferenceList(roster: Roster): seq<Option<string>> {
    Seqs.SortBy(Seqs.Dedup(Seqs.Map(roster.ids, id => ConferenceOf(roster, id))), ConfLe)
  }

  /**
   * The conference list of a table page, or None for the crash: `sorted`
   * raises when a blank conference has to be compared with a named one, and
   * `conferences[0]` raises on an empty roster.
   */
  function Conferences(roster: Roster): Option<seq<Option<string>>> {
    var cs := ConferenceList(roster);
    if cs == [] || (None in cs && |cs| > 1) then None else Some(cs)
  }

  /** The conference a table page shows: the one asked for if it exists, else the first. */
  function SelectConference(cs: seq<Option<string>>, requested: Option<string>): Option<string>
    requires cs != []
  {
    if requested in cs then requested else cs[0]
  }

  /** The conferences are listed sorted, once each, and they are exactly those of the roster. */
  lemma ConferencesListed(roster: Roster)
    ensures var cs := ConferenceList(roster);
      && Seqs.SortedBy(cs, ConfLe) && Seqs.Distinct(cs)
      && (forall id | id in roster.ids :: ConferenceOf(roster, id) in cs)
      && (forall c | c in cs :: exists id :: id in roster.ids && ConferenceOf(roster, id) == c)
  {
    ConfLeIsTotalPreorder();
    var f := id => ConferenceOf(roster, id);
    var all := Seqs.Map(roster.ids, f);
    Seqs.SortedSet(all, ConfLe);
    forall id | id in roster.ids ensures ConferenceOf(roster, id) in all {
      var k :| 0 <= k < |roster.ids| && roster.ids[k] == id;
      assert all[k] == ConferenceOf(roster, id);
    }
    forall c | c in all ensures exists id :: id in roster.ids && ConferenceOf(roster, id) == c {
      var k :| 0 <= k < |all| && all[k] == c;
      assert roster.ids[k] in roster.ids;
    }
  }

  /**
   * A table page can be built exactly when the roster is not empty and its
   * conferences are either all named or all blank.
   */
  lemma ConferencesSpec(roster: Roster)
    ensures Conferences(roster).Some? <==>
      && roster.ids != []
      && ((forall id | id in roster.ids :: ConferenceOf(roster, id).Some?) ||
          (forall id | id in roster.ids :: ConferenceOf(roster, id).None?))
  {
    ConferencesListed(roster);
    Crashes(roster, ConferenceList(roster));
  }

  lemma Crashes(roster: Roster, cs: seq<Option<string>>)
    requires Seqs.Distinct(cs)
    requires forall id | id in roster.ids :: ConferenceOf(roster, id) in cs
    requires forall c | c in cs :: exists id :: id in roster.ids && ConferenceOf(roster, id) == c
    ensures (cs == [] || (None in cs && |cs| > 1)) <==>
      || roster.ids == []
      || ((exists id | id in roster.ids :: ConferenceOf(roster, id).None?) &&
          (exists id | id in roster.ids :: ConferenceOf(roster, id).Some?))
  {
    if roster.ids != [] {
      assert ConferenceOf(roster, roster.ids[0]) in cs;
    }
    if cs != [] {
      assert cs[0] in cs;
    }
    if None in cs && |cs| > 1 {
      var c := if cs[0] == None then cs[1] else cs[0];
      assert c in cs && c != None;
    }
    if exists a, b | a in roster.ids && b in roster.ids ::
         ConferenceOf(roster, a).None? && ConferenceOf(roster, b).Some? {
      var a, b :| a in roster.ids && b in roster.ids &&
        ConferenceOf(roster, a).None? && ConferenceOf(roster, b).Some?;
      var i :| 0 <= i < |cs| && cs[i] == ConferenceOf(roster, a);
      var j :| 0 <= j < |cs| && cs[j] == ConferenceOf(roster, b);
      assert i != j;
    }
  }

  /** A conference that exists is shown when asked for; anything else shows the first in sorted order. */
  lemma SelectConferenceSpec(cs: seq<Option<string>>, requested: Option<string>)
    requires cs != [] && Seqs.SortedBy(cs, ConfLe)
    ensures SelectConference(cs, requested) in cs
    ensures requested in cs <==> SelectConference(cs, requested) == requested
    ensures requested !in cs ==> forall c :: c in cs ==> ConfLe(SelectConference(cs, requested), c)
  {
    if requested !in cs {
      forall c | c in cs ensures ConfLe(cs[0], c) {
        var k :| 0 <= k < |cs| && cs[k] == c;
        if k > 0 {
          assert ConfLe(cs[0], cs[k]);
        } else {
          ConfLeIsTotalPreorder();
        }
      }
    }
  }

  // ---------------------------------------------------------------------
  // The table

  /** One line of a conference table. */
  datatype Standing = Standing(id: int, name: Option<string>, record: Record)

  /** The roster's entities in the conference, in roster order: the keys of the stats dict. */
  function Members(roster: Roster, conf: Option<string>): seq<int> {
    Seqs.Filter(roster.ids, (id: int) => ConferenceOf(roster, id) == conf)
  }

  function LineOf(roster: Roster, ms: seq<Match>, id: int): Standing {
    Standing(id, NameOf(roster, id), RecordOf(ms, id))
  }

  /** The unsorted table: one line per id, in the order given. */
  function Lines(ids: seq<int>, roster: Roster, ms: seq<Match>): (ls: seq<Standing>)
    ensures |ls| == |ids|
  {
    if ids == [] then []
    else Lines(ids[..|ids| - 1], roster, ms) + [LineOf(roster, ms, ids[|ids| - 1])]
  }

  /** `key=(wins, point_diff), reverse=True`: `a` may stay ahead of `b`. */
  predicate ByWinsDiff(a: Standing, b: Standing) {
    a.record.wins > b.record.wins ||
    (a.record.wins == b.record.wins && a.record.pointDiff >= b.record.pointDiff)
  }

  lemma ByWinsDiffOrder()
    ensures Seqs.TotalPreorder(ByWinsDiff)
  {
  }

  /** The table of one conference: its members' lines, best first. */
  function Table(roster: Roster, ms: seq<Match>, conf: Option<string>): seq<Standing> {
    Seqs.SortBy(Lines(Members(roster, conf), roster, ms), ByWinsDiff)
  }

  /** The table is ordered best first by `(wins, point difference)` and holds the members' lines. */
  lemma TableSorted(roster: Roster, ms: seq<Match>, conf: Option<string>)
    ensures var t := Table(roster, ms, conf);
      forall i, j :: 0 <= i < j < |t| ==>
        t[i].record.wins > t[j].record.wins ||
        (t[i].record.wins == t[j].record.wins && t[i].record.pointDiff >= t[j].record.pointDiff)
    ensures multiset(Table(roster, ms, conf)) == multiset(Lines(Members(roster, conf), roster, ms))
  {
    ByWinsDiffOrder();
    Seqs.SortBySorted(Lines(Members(roster, conf), roster, ms), ByWinsDiff);
    Seqs.SortByPerm(Lines(Members(roster, conf), roster, ms), ByWinsDiff);
  }

  /** Lines tied on `(wins, point difference)` keep roster order, as Python's stable sort does. */
  lemma TableStable(roster: Roster, ms: seq<Match>, conf: Option<string>, e: Standing)
    ensures Seqs.Peers(Table(roster, ms, conf), e, ByWinsDiff) ==
            Seqs.Peers(Lines(Members(roster, conf), roster, ms), e, ByWinsDiff)
  {
    ByWinsDiffOrder();
    Seqs.SortByStable(Lines(Members(roster, conf), roster, ms), e, ByWinsDiff);
  }

  function IdOf(e: Standing): int {
    e.id
  }

  lemma {:induction false} LinesIds(ids: seq<int>, roster: Roster, ms: seq<Match>)
    ensures Seqs.Map(Lines(ids, roster, ms), IdOf) == ids
  {
    if ids != [] {
      var pre := ids[..|ids| - 1];
      LinesIds(pre, roster, ms);
      Seqs.MapSnoc(Lines(pre, roster, ms), LineOf(roster, ms, ids[|ids| - 1]), IdOf);
      assert ids == pre + [ids[|ids| - 1]];
    }
  }

  /**
   * Every entity of the conference has exactly one line, whether or not it
   * has played, and no other entity has one.
   */
  lemma TableMembers(roster: Roster, ms: seq<Match>, conf: Option<string>)
    requires Seqs.Distinct(roster.ids)
    ensures Seqs.Distinct(Seqs.Map(Table(roster, ms, conf), IdOf))
    ensures forall id :: id in Seqs.Map(Table(roster, ms, conf), IdOf) <==>
      id in roster.ids && ConferenceOf(roster, id) == conf
  {
    var members := Members(roster, conf);
    Seqs.FilterDistinct(roster.ids, (id: int) => ConferenceOf(roster, id) == conf);
    LinesIds(members, roster, ms);
    Seqs.SortByKeys(Lines(members, roster, ms), ByWinsDiff, IdOf);
  }

  lemma {:induction false} LinesOf(ids: seq<int>, roster: Roster, ms: seq<Match>)
    ensures forall e | e in Lines(ids, roster, ms) :: e == LineOf(roster, ms, e.id)
  {
    if ids != [] {
      LinesOf(ids[..|ids| - 1], roster, ms);
    }
  }

  /** Each line holds its entity's name and its record over the matches. */
  lemma TableLines(roster: Roster, ms: seq<Match>, conf: Option<string>)
    ensures forall e | e in Table(roster, ms, conf) ::
      e.name == NameOf(roster, e.id) && e.record == RecordOf(ms, e.id)
  {
    var ls := Lines(Members(roster, conf), roster, ms);
    LinesOf(Members(roster, conf), roster, ms);
    Seqs.SortByMembers(ls, ByWinsDiff);
  }

  /** The four counters summed over the lines of a table. */
  function Totals(ls: seq<Standing>): Record {
    if ls == [] then Zero else Add(ls[0].record, Totals(ls[1..]))
  }

  lemma {:induction false} TotalsAppend(a: seq<Standing>, b: seq<Standing>)
    ensures Totals(a + b) == Add(Totals(a), Totals(b))
  {
    if a != [] {
      assert (a + b)[1..] == a[1..] + b;
      TotalsAppend(a[1..], b);
    } else {
      assert a + b == b;
    }
  }

  lemma {:induction false} InsertByTotals(x: Standing, s: seq<Standing>)
    ensures Totals(Seqs.InsertBy(x, s, ByWinsDiff)) == Add(x.record, Totals(s))
  {
    if s != [] && !ByWinsDiff(x, s[0]) {
      InsertByTotals(x, s[1..]);
    }
  }

  lemma {:induction false} SortByTotals(s: seq<Standing>)
    ensures Totals(Seqs.SortBy(s, ByWinsDiff)) == Totals(s)
  {
    if s != [] {
      SortByTotals(s[1..]);
      InsertByTotals(s[0], Seqs.SortBy(s[1..], ByWinsDiff));
    }
  }

  lemma LinesTotalsSnoc(ids: seq<int>, roster: Roster, ms: seq<Match>)
    requires ids != []
    ensures Totals(Lines(ids, roster, ms)) ==
            Add(Totals(Lines(ids[..|ids| - 1], roster, ms)), RecordOf(ms, ids[|ids| - 1]))
  {
    var e := LineOf(roster, ms, ids[|ids| - 1]);
    TotalsAppend(Lines(ids[..|ids| - 1], roster, ms), [e]);
    assert [e][1..] == [];
  }

  /** What one match adds to a table of the entities `ids`. */
  function Share(ids: seq<int>, m: Match): Record {
    Credited(m, m.winnerId in ids, m.loserId in ids)
  }

  /** One more match adds its share to the table of distinct entities. */
  lemma {:induction false} LinesAddMatch(ids: seq<int>, roster: Roster, ms: seq<Match>, m: Match)
    requires Seqs.Distinct(ids)
    ensures Totals(Lines(ids, roster, ms + [m])) == Add(Totals(Lines(ids, roster, ms)), Share(ids, m))
  {
    if ids != [] {
      var pre, x := ids[..|ids| - 1], ids[|ids| - 1];
      assert ids == pre + [x];
      assert Seqs.Distinct(pre) && x !in pre;
      LinesAddMatch(pre, roster, ms, m);
      LinesTotalsSnoc(ids, roster, ms);
      LinesTotalsSnoc(ids, roster, ms + [m]);
      RecordOfSnoc(ms, m, x);
      ShareSnoc(pre, x, m);
      AddSwap(Totals(Lines(pre, roster, ms)), Share(pre, m), RecordOf(ms, x), Delta(x, m));
    } else {
      assert Share(ids, m) == Zero;
      AddZero(Zero);
    }
  }

  lemma AddSwap(a: Record, b: Record, c: Record, d: Record)
    ensures Add(Add(a, b), Add(c, d)) == Add(Add(a, c), Add(b, d))
  {
  }

  lemma ShareSnoc(ids: seq<int>, x: int, m: Match)
    requires x !in ids
    ensures Share(ids + [x], m) == Add(Share(ids, m), Delta(x, m))
  {
    InSnoc(ids, x, m.winnerId);
    InSnoc(ids, x, m.loserId);
    if m.pointDiff.Some? {
      CreditedSplit(m, m.winnerId in ids, m.loserId in ids, m.winnerId == x, m.loserId == x);
    } else {
      AddZero(Zero);
    }
  }

  lemma CreditedSplit(m: Match, w: bool, l: bool, w': bool, l': bool)
    requires m.pointDiff.Some? && !(w && w') && !(l && l')
    ensures Credited(m, w || w', l || l') == Add(Credited(m, w, l), Credited(m, w', l'))
  {
    var a, b, c := Credited(m, w || w', l || l'), Credited(m, w, l), Credited(m, w', l');
    SameRecord(a, Add(b, c));
  }

  /** Two records with the same four counters are the same record. */
  lemma SameRecord(a: Record, b: Record)
    requires a.wins == b.wins && a.losses == b.losses
    requires a.played == b.played && a.pointDiff == b.pointDiff
    ensures a == b
  {
  }

  lemma InSnoc(ids: seq<int>, x: int, y: int)
    ensures y in ids + [x] <==> y in ids || y == x
  {
    if y in ids + [x] && y != x {
      var k :| 0 <= k < |ids| + 1 && (ids + [x])[k] == y;
      assert ids[k] == y;
    }
    if y in ids {
      var k :| 0 <= k < |ids| && ids[k] == y;
      assert (ids + [x])[k] == y;
    }
  }

  lemma {:induction false} LinesNoMatches(ids: seq<int>, roster: Roster)
    ensures Totals(Lines(ids, roster, [])) == Zero
  {
    if ids != [] {
      LinesNoMatches(ids[..|ids| - 1], roster);
      LinesTotalsSnoc(ids, roster, []);
    }
  }

  /** Matches between two entities of the table, or between two outside it. */
  predicate Internal(ids: seq<int>, m: Match) {
    m.pointDiff.Some? ==> (m.winnerId in ids <==> m.loserId in ids)
  }

  lemma ShareInternal(ids: seq<int>, m: Match)
    requires Internal(ids, m)
    ensures Share(ids, m).wins == Share(ids, m).losses && Share(ids, m).pointDiff == 0
  {
  }

  lemma {:induction false} LinesZeroSum(ids: seq<int>, roster: Roster, ms: seq<Match>)
    requires Seqs.Distinct(ids)
    requires forall k :: 0 <= k < |ms| ==> Internal(ids, ms[k])
    ensures var t := Totals(Lines(ids, roster, ms)); t.wins == t.losses && t.pointDiff == 0
  {
    if ms == [] {
      LinesNoMatches(ids, roster);
    } else {
      var pre, m := ms[..|ms| - 1], ms[|ms| - 1];
      assert ms == pre + [m];
      LinesZeroSum(ids, roster, pre);
      LinesAddMatch(ids, roster, pre, m);
      ShareInternal(ids, m);
    }
  }

  /**
   * When every completed match is played inside the conference or wholly
   * outside it, the table's wins equal its losses and its point differences
   * sum to zero.
   */
  lemma TableZeroSum(roster: Roster, ms: seq<Match>, conf: Option<string>)
    requires Seqs.Distinct(roster.ids)
    requires forall k :: 0 <= k < |ms| ==> Internal(Members(roster, conf), ms[k])
    ensures var t := Totals(Table(roster, ms, conf)); t.wins == t.losses && t.pointDiff == 0
  {
    var members := Members(roster, conf);
    Seqs.FilterDistinct(roster.ids, (id: int) => ConferenceOf(roster, id) == conf);
    LinesZeroSum(members, roster, ms);
    SortByTotals(Lines(members, roster, ms));
  }

  /** What a table page shows. */
  datatype TablePage = TablePage(
    table: seq<Standing>,
    conferences: seq<Option<string>>,
    selected: Option<string>)

  /** The table page, or None where the route crashes. */
  function TablePageOf(roster: Roster, ms: seq<Match>, requested: Option<string>): Option<TablePage> {
    match Conferences(roster)
    case None => None
    case Some(cs) =>
      var conf := SelectConference(cs, requested);
      Some(TablePage(Table(roster, ms, conf), cs, conf))
  }

  /** The stats dict holds, for each member and nothing else, its line over `ms`. */
  ghost predicate Tallied(ms: seq<Match>, members: seq<int>, stats: map<int, Record>) {
    && (forall id :: id in stats <==> id in members)
    && (forall id | id in stats :: stats[id] == RecordOf(ms, id))
  }

  /** One pass of the counting loop: credit the winner and the loser if they are in the dict. */
  method Credit(stats: map<int, Record>, m: Match) returns (stats': map<int, Record>)
    ensures forall id :: id in stats' <==> id in stats
    ensures forall id | id in stats' :: stats'[id] == Add(stats[id], Delta(id, m))
  {
    stats' := stats;
    if m.pointDiff.Some? {
      var d := m.pointDiff.value;
      if m.winnerId in stats' {
        var s := stats'[m.winnerId];
        stats' := stats'[m.winnerId := Record(s.wins + 1, s.losses, s.played + 1, s.pointDiff + d)];
      }
      if m.loserId in stats' {
        var s := stats'[m.loserId];
        stats' := stats'[m.loserId := Record(s.wins, s.losses + 1, s.played + 1, s.pointDiff - d)];
      }
    }
  }

  lemma TallyStep(ms: seq<Match>, members: seq<int>, stats: map<int, Record>, m: Match,
                  stats': map<int, Record>)
    requires Tallied(ms, members, stats)
    requires forall id :: id in stats' <==> id in stats
    requires forall id | id in stats' :: stats'[id] == Add(stats[id], Delta(id, m))
    ensures Tallied(ms + [m], members, stats')
  {
    forall id | id in stats' ensures stats'[id] == RecordOf(ms + [m], id) {
      RecordOfSnoc(ms, m, id);
    }
  }

  /** The counting loop over all matches, from a zero line per member. */
  method Tally(ms: seq<Match>, members: seq<int>) returns (stats: map<int, Record>)
    ensures Tallied(ms, members, stats)
  {
    stats := map id | id in members :: Zero;
    for i := 0 to |ms|
      invariant Tallied(ms[..i], members, stats)
    {
      var stats' := Credit(stats, ms[i]);
      TallyStep(ms[..i], members, stats, ms[i], stats');
      assert ms[..i + 1] == ms[..i] + [ms[i]];
      stats := stats';
    }
    assert ms[..|ms|] == ms;
  }

  /** The loop that builds one line per key of the stats dict, in its order. */
  method LayOut(members: seq<int>, roster: Roster, ms: seq<Match>, stats: map<int, Record>)
    returns (lines: seq<Standing>)
    requires Tallied(ms, members, stats)
    ensures lines == Lines(members, roster, ms)
  {
    lines := [];
    for j := 0 to |members|
      invariant lines == Lines(members[..j], roster, ms)
    {
      var id := members[j];
      assert members[..j + 1][..j] == members[..j];
      lines := lines + [Standing(id, NameOf(roster, id), stats[id])];
    }
    assert members[..|members|] == members;
  }

  /**
   * A conference table route: the conferences, the one selected, and the
   * selected conference's table; None where the route crashes.
   */
  method ConferenceTable(roster: Roster, ms: seq<Match>, requested: Option<string>)
    returns (page: Option<TablePage>)
    ensures page == TablePageOf(roster, ms, requested)
  {
    var confs := Conferences(roster);
    if confs.None? {
      return None;
    }
    var cs := confs.value;
    var conf := SelectConference(cs, requested);
    var members := Members(roster, conf);
    var stats := Tally(ms, members);
    var lines := LayOut(members, roster, ms, stats);
    page := Some(TablePage(Seqs.SortBy(lines, ByWinsDiff), cs, conf));
  }

  // ---------------------------------------------------------------------
  // The 1v1 player profile

  datatype Outcome = Win | Loss

  /** A match as the profile lists it: with both players' names and the outcome for the player. */
  datatype Game = Game(m: Match, winnerName: Option<string>, loserName: Option<string>, result: Outcome)

  datatype Profile = Profile(
    playerId: int,
    playerName: Option<string>,
    conference: Option<string>,
    games: seq<Game>,
    stats: Record)

  /** A route's answer: a page, a 404, or the 500 of an uncaught exception. */
  datatype Reply<T> = Ok(value: T) | NotFound | Crash

  predicate Involves(m: Match, pid: int) {
    m.winnerId == pid || m.loserId == pid
  }

  /** The matches the player won or lost, in file order. */
  function PlayerMatches(ms: seq<Match>, pid: int): seq<Match> {
    Seqs.Filter(ms, (m: Match) => Involves(m, pid))
  }

  /** One match with the two names attached; None for the KeyError of an id missing from the roster. */
  function Named(players: Roster, pid: int, m: Match): Option<Game> {
    if m.winnerId in players.info && m.loserId in players.info then
      Some(Game(m, players.info[m.winnerId].name, players.info[m.loserId].name,
                if m.winnerId == pid then Win else Loss))
    else None
  }

  function Games(players: Roster, ms: seq<Match>, pid: int): Option<seq<Game>> {
    Seqs.AllOrNone(PlayerMatches(ms, pid), (m: Match) => Named(players, pid, m))
  }

  /** `m["date"] or ""`: the sort key, with undated matches on the empty string. */
  function DateKey(g: Game): string {
    g.m.date.GetOr("")
  }

  /** `key=date, reverse=True`: `a` may stay ahead of `b`. */
  predicate Later(a: Game, b: Game) {
    StrLe(DateKey(b), DateKey(a))
  }

  lemma LaterOrder()
    ensures Seqs.TotalPreorder(Later)
  {
    forall a, b ensures Later(a, b) || Later(b, a) {
      StrLeTotal(DateKey(a), DateKey(b));
    }
    forall a, b, c | Later(a, b) && Later(b, c) ensures Later(a, c) {
      StrLeTransitive(DateKey(c), DateKey(b), DateKey(a));
    }
  }

  /** What one listed match adds to the profile's summary: a win if the player won it, else a loss. */
  function Scored(pid: int, m: Match): Record {
    Credited(m, m.winnerId == pid, m.winnerId != pid)
  }

  /** The profile's summary over its listed matches. */
  function Summary(pid: int, gs: seq<Game>): Record {
    if gs == [] then Zero else Add(Summary(pid, gs[..|gs| - 1]), Scored(pid, gs[|gs| - 1].m))
  }

  /** The profile page of `pid`. */
  function ProfileOf(players: Roster, ms: seq<Match>, pid: int): Reply<Profile> {
    if pid !in players.info then NotFound
    else
      match Games(players, ms, pid)
      case None => Crash
      case Some(gs) =>
        var sorted := Seqs.SortBy(gs, Later);
        Ok(Profile(pid, players.info[pid].name, players.info[pid].conference, sorted, Summary(pid, sorted)))
  }

  /** The loop that attaches names, stopping at the first unknown id. */
  method NameGames(players: Roster, mine: seq<Match>, pid: int) returns (gs: Option<seq<Game>>)
    ensures gs == Seqs.AllOrNone(mine, (m: Match) => Named(players, pid, m))
  {
    var acc: seq<Game> := [];
    for i := 0 to |mine|
      invariant Seqs.AllOrNone(mine[..i], (m: Match) => Named(players, pid, m)) == Some(acc)
    {
      assert mine[..i + 1][..i] == mine[..i];
      var m := mine[i];
      if m.winnerId !in players.info || m.loserId !in players.info {
        Seqs.AllOrNonePrefix(mine, i + 1, (m: Match) => Named(players, pid, m));
        return None;
      }
      var result := if m.winnerId == pid then Win else Loss;
      acc := acc + [Game(m, players.info[m.winnerId].name, players.info[m.loserId].name, result)];
    }
    assert mine[..|mine|] == mine;
    gs := Some(acc);
  }

  /** One pass of the summary loop: a fixture is skipped, any other match is a win or a loss. */
  method Score(stats: Record, pid: int, m: Match) returns (stats': Record)
    ensures stats' == Add(stats, Scored(pid, m))
  {
    if m.pointDiff.None? {
      AddZero(stats);
      return stats;
    }
    var d := m.pointDiff.value;
    if m.winnerId == pid {
      stats' := Record(stats.wins + 1, stats.losses, stats.played + 1, stats.pointDiff + d);
    } else {
      stats' := Record(stats.wins, stats.losses + 1, stats.played + 1, stats.pointDiff - d);
    }
    SameRecord(stats', Add(stats, Scored(pid, m)));
  }

  /** The summary loop over the listed matches. */
  method Summarise(pid: int, gs: seq<Game>) returns (stats: Record)
    ensures stats == Summary(pid, gs)
  {
    stats := Zero;
    for i := 0 to |gs|
      invariant stats == Summary(pid, gs[..i])
    {
      assert gs[..i + 1][..i] == gs[..i];
      stats := Score(stats, pid, gs[i].m);
    }
    assert gs[..|gs|] == gs;
  }

  /** The 1v1 player profile route. */
  method PlayerProfile(players: Roster, ms: seq<Match>, pid: int) returns (reply: Reply<Profile>)
    ensures reply == ProfileOf(players, ms, pid)
  {
    if pid !in players.info {
      return NotFound;
    }
    var info := players.info[pid];
    var gs := NameGames(players, PlayerMatches(ms, pid), pid);
    if gs.None? {
      return Crash;
    }
    var sorted := Seqs.SortBy(gs.value, Later);
    var stats := Summarise(pid, sorted);
    reply := Ok(Profile(pid, info.name, info.conference, sorted, stats));
  }

  function MatchOf(g: Game): Match {
    g.m
  }

  /**
   * The profile is a 404 exactly for an id missing from the roster, and a
   * crash exactly when one of the player's matches names an id missing from it.
   */
  lemma ProfileFound(players: Roster, ms: seq<Match>, pid: int)
    ensures ProfileOf(players, ms, pid).NotFound? <==> pid !in players.info
    ensures ProfileOf(players, ms, pid).Crash? <==>
      && pid in players.info
      && exists m :: m in ms && Involves(m, pid) &&
                     (m.winnerId !in players.info || m.loserId !in players.info)
  {
    var mine := PlayerMatches(ms, pid);
    var f := (m: Match) => Named(players, pid, m);
    Seqs.AllOrNoneSpec(mine, f);
    if exists m :: m in ms && Involves(m, pid) && (m.winnerId !in players.info || m.loserId !in players.info) {
      var m :| m in ms && Involves(m, pid) && (m.winnerId !in players.info || m.loserId !in players.info);
      var k :| 0 <= k < |mine| && mine[k] == m;
      assert f(mine[k]).None?;
    }
    if Games(players, ms, pid).None? {
      var k :| 0 <= k < |mine| && f(mine[k]).None?;
      assert mine[k] in mine;
    }
  }

  lemma GamesMatches(players: Roster, ms: seq<Match>, pid: int)
    requires Games(players, ms, pid).Some?
    ensures var gs := Games(players, ms, pid).value;
      && Seqs.Map(gs, MatchOf) == PlayerMatches(ms, pid)
      && forall g | g in gs ::
           && (g.result == Win <==> g.m.winnerId == pid)
           && g.winnerName == NameOf(players, g.m.winnerId)
           && g.loserName == NameOf(players, g.m.loserId)
  {
    var mine := PlayerMatches(ms, pid);
    Seqs.AllOrNoneSpec(mine, (m: Match) => Named(players, pid, m));
  }

  /**
   * The profile lists every match the player won or lost, each once, with
   * both names and the player's outcome, latest date first.
   */
  lemma ProfileGames(players: Roster, ms: seq<Match>, pid: int)
    requires ProfileOf(players, ms, pid).Ok?
    ensures var gs := ProfileOf(players, ms, pid).value.games;
      && multiset(Seqs.Map(gs, MatchOf)) == multiset(PlayerMatches(ms, pid))
      && (forall g | g in gs ::
           && (g.result == Win <==> g.m.winnerId == pid)
           && g.winnerName == NameOf(players, g.m.winnerId)
           && g.loserName == NameOf(players, g.m.loserId))
      && (forall i, j :: 0 <= i < j < |gs| ==> StrLe(DateKey(gs[j]), DateKey(gs[i])))
  {
    var gs := Games(players, ms, pid).value;
    GamesMatches(players, ms, pid);
    Seqs.SortByMap(gs, Later, MatchOf);
    LaterOrder();
    Seqs.SortBySorted(gs, Later);
    Seqs.SortByMembers(gs, Later);
  }

  /** Matches on the same date keep their file order. */
  lemma ProfileStable(players: Roster, ms: seq<Match>, pid: int, e: Game)
    requires ProfileOf(players, ms, pid).Ok?
    ensures Seqs.Peers(ProfileOf(players, ms, pid).value.games, e, Later) ==
            Seqs.Peers(Games(players, ms, pid).value, e, Later)
  {
    LaterOrder();
    Seqs.SortByStable(Games(players, ms, pid).value, e, Later);
  }

  /** Undated matches come after every dated one (dates are never blank once loaded). */
  lemma UndatedLast(players: Roster, ms: seq<Match>, pid: int)
    requires ProfileOf(players, ms, pid).Ok?
    requires forall m | m in ms :: m.date != Some("")
    ensures var gs := ProfileOf(players, ms, pid).value.games;
      forall i, j :: 0 <= i < j < |gs| && gs[i].m.date.None? ==> gs[j].m.date.None?
  {
    var gs := ProfileOf(players, ms, pid).value.games;
    ProfileGames(players, ms, pid);
    forall i, j | 0 <= i < j < |gs| && gs[i].m.date.None? ensures gs[j].m.date.None? {
      assert StrLe(DateKey(gs[j]), []);
      assert Seqs.Map(gs, MatchOf)[j] == gs[j].m;
      assert multiset(Seqs.Map(gs, MatchOf))[gs[j].m] > 0;
      assert gs[j].m in PlayerMatches(ms, pid);
    }
  }

  lemma AddRotate(a: Record, b: Record, c: Record)
    ensures Add(a, Add(b, c)) == Add(b, Add(a, c))
  {
    SameRecord(Add(a, Add(b, c)), Add(b, Add(a, c)));
  }

  lemma AddAssoc(a: Record, b: Record, c: Record)
    ensures Add(Add(a, b), c) == Add(a, Add(b, c))
  {
    SameRecord(Add(Add(a, b), c), Add(a, Add(b, c)));
  }

  lemma {:induction false} SummaryAppend(pid: int, a: seq<Game>, b: seq<Game>)
    ensures Summary(pid, a + b) == Add(Summary(pid, a), Summary(pid, b))
    decreases |b|
  {
    if b == [] {
      assert a + b == a;
      AddZero(Summary(pid, a));
    } else {
      var pre, g := b[..|b| - 1], b[|b| - 1];
      assert (a + b)[..|a + b| - 1] == a + pre;
      SummaryAppend(pid, a, pre);
      AddAssoc(Summary(pid, a), Summary(pid, pre), Scored(pid, g.m));
    }
  }

  lemma SummaryCons(pid: int, g: Game, s: seq<Game>)
    ensures Summary(pid, [g] + s) == Add(Scored(pid, g.m), Summary(pid, s))
  {
    SummaryAppend(pid, [g], s);
    assert [g][..0] == [];
    AddZero(Scored(pid, g.m));
  }

  lemma {:induction false} InsertBySummary(pid: int, x: Game, s: seq<Game>)
    ensures Summary(pid, Seqs.InsertBy(x, s, Later)) == Add(Scored(pid, x.m), Summary(pid, s))
  {
    if s == [] || Later(x, s[0]) {
      SummaryCons(pid, x, s);
    } else {
      InsertBySummary(pid, x, s[1..]);
      SummaryCons(pid, s[0], Seqs.InsertBy(x, s[1..], Later));
      SummaryCons(pid, s[0], s[1..]);
      assert s == [s[0]] + s[1..];
      AddRotate(Scored(pid, s[0].m), Scored(pid, x.m), Summary(pid, s[1..]));
    }
  }

  /** Sorting the listed matches does not change the summary. */
  lemma {:induction false} SortBySummary(pid: int, s: seq<Game>)
    ensures Summary(pid, Seqs.SortBy(s, Later)) == Summary(pid, s)
  {
    if s != [] {
      SortBySummary(pid, s[1..]);
      InsertBySummary(pid, s[0], Seqs.SortBy(s[1..], Later));
      SummaryCons(pid, s[0], s[1..]);
      assert s == [s[0]] + s[1..];
    }
  }

  /**
   * The profile's summary counts each played game once, as a win or as a
   * loss, even a game against themselves (which it counts as a win).
   */
  lemma {:induction false} SummaryBalanced(pid: int, gs: seq<Game>)
    ensures var r := Summary(pid, gs); 0 <= r.wins && 0 <= r.losses && r.wins + r.losses == r.played
  {
    if gs != [] {
      SummaryBalanced(pid, gs[..|gs| - 1]);
    }
  }

  /** For a match the player took part in, but not against themselves, the profile counts it as the table does. */
  lemma ScoredIsDelta(pid: int, m: Match)
    requires Involves(m, pid) && !(Completed(m) && m.winnerId == pid && m.loserId == pid)
    ensures Scored(pid, m) == Delta(pid, m)
  {
  }

  lemma {:induction false} SummaryOfMatches(pid: int, gs: seq<Game>, mine: seq<Match>)
    requires |gs| == |mine|
    requires forall k :: 0 <= k < |gs| ==> gs[k].m == mine[k]
    requires forall k :: 0 <= k < |mine| ==>
      Involves(mine[k], pid) && !(Completed(mine[k]) && mine[k].winnerId == pid && mine[k].loserId == pid)
    ensures Summary(pid, gs) == RecordOf(mine, pid)
  {
    if gs != [] {
      var n := |gs| - 1;
      SummaryOfMatches(pid, gs[..n], mine[..n]);
      ScoredIsDelta(pid, mine[n]);
    }
  }

  /** A match the player did not take part in adds nothing to their line. */
  lemma {:induction false} RecordOfPlayerMatches(ms: seq<Match>, pid: int)
    ensures RecordOf(PlayerMatches(ms, pid), pid) == RecordOf(ms, pid)
  {
    if ms != [] {
      var pre, m := ms[..|ms| - 1], ms[|ms| - 1];
      assert ms == pre + [m];
      RecordOfPlayerMatches(pre, pid);
      Seqs.FilterSnoc(pre, m, (m: Match) => Involves(m, pid));
      RecordOfSnoc(pre, m, pid);
      if Involves(m, pid) {
        RecordOfSnoc(PlayerMatches(pre, pid), m, pid);
      } else {
        assert PlayerMatches(ms, pid) == PlayerMatches(pre, pid) + [];
        assert PlayerMatches(pre, pid) + [] == PlayerMatches(pre, pid);
        SameRecord(Delta(pid, m), Zero);
        AddZero(RecordOf(pre, pid));
      }
    }
  }

  /**
   * The profile's summary is the player's line in the conference table,
   * unless a completed match is recorded as the player beating themselves
   * (the table counts that as a win and a loss, the profile as a win).
   */
  lemma ProfileAgreesWithTable(players: Roster, ms: seq<Match>, pid: int)
    requires ProfileOf(players, ms, pid).Ok?
    requires forall m | m in ms && Completed(m) :: !(m.winnerId == pid && m.loserId == pid)
    ensures ProfileOf(players, ms, pid).value.stats == RecordOf(ms, pid)
  {
    var gs := Games(players, ms, pid).value;
    var mine := PlayerMatches(ms, pid);
    GamesMatches(players, ms, pid);
    SortBySummary(pid, gs);
    forall k | 0 <= k < |gs| ensures gs[k].m == mine[k] {
      assert Seqs.Map(gs, MatchOf)[k] == gs[k].m;
    }
    forall k | 0 <= k < |mine|
      ensures Involves(mine[k], pid) && !(Completed(mine[k]) && mine[k].winnerId == pid && mine[k].loserId == pid)
    {
      assert mine[k] in mine;
    }
    SummaryOfMatches(pid, gs, mine);
    RecordOfPlayerMatches(ms, pid);
  }
}
