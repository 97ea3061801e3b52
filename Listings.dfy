/** The read-only commands: the two status listings and the activity log.
    Each one walks a result set that the database returns already filtered
    and ordered, and stops after a page. The result set is a parameter,
    described by what its SQL query promises. */
module Listings {
  import opened Entities

  /** Rows a status listing shows at most. */
  const PageSize: nat := 10

  /** Entries the log shows when `anzahl` is not given. */
  const DefaultLogLimit: int := 10

  /** A row of a result set: the primary key and the other columns. */
  datatype Row<T> = Row(id: int, rec: T)

  /** `rows` is the result of
      `SELECT * FROM plants WHERE status = 'planted' ORDER BY planted_at DESC`:
      every planted row exactly once, newest first (ties in any order). */
  predicate IsActivePlantResult(plants: map<int, Plant>, rows: seq<Row<Plant>>)
  {
    && (forall i | 0 <= i < |rows| ::
          rows[i].id in plants && plants[rows[i].id] == rows[i].rec && rows[i].rec.status == Planted)
    && (forall i, j | 0 <= i < j < |rows| ::
          rows[i].id != rows[j].id && rows[i].rec.plantedAt >= rows[j].rec.plantedAt)
    && (forall id | id in plants && plants[id].status == Planted :: Row(id, plants[id]) in rows)
  }

  /** `rows` is the result of
      `SELECT * FROM solar_panels WHERE status = 'active' ORDER BY placed_at DESC`. */
  predicate IsActivePanelResult(panels: map<int, Panel>, rows: seq<Row<Panel>>)
  {
    && (forall i | 0 <= i < |rows| ::
          rows[i].id in panels && panels[rows[i].id] == rows[i].rec && rows[i].rec.status == Active)
    && (forall i, j | 0 <= i < j < |rows| ::
          rows[i].id != rows[j].id && rows[i].rec.placedAt >= rows[j].rec.placedAt)
    && (forall id | id in panels && panels[id].status == Active :: Row(id, panels[id]) in rows)
  }

  /** `/pflanzen-status`: the newest planted plants, at most a page of them;
      an empty listing means that no plant is planted. */
  method PlantsStatus(plants: map<int, Plant>, rows: seq<Row<Plant>>) returns (shown: seq<Row<Plant>>)
    requires IsActivePlantResult(plants, rows)
    ensures |shown| <= PageSize
    ensures forall r | r in shown :: r.id in plants && plants[r.id] == r.rec && r.rec.status == Planted
    ensures forall i, j | 0 <= i < j < |shown| :: shown[i].id != shown[j].id && shown[i].rec.plantedAt >= shown[j].rec.plantedAt
    ensures forall id | id in plants && plants[id].status == Planted && Row(id, plants[id]) !in shown ::
      |shown| == PageSize && forall r | r in shown :: r.rec.plantedAt >= plants[id].plantedAt
    ensures shown == [] <==> forall id | id in plants :: plants[id].status != Planted
  {
    shown := [];
    var count := 0;
    while count < |rows| && count < PageSize
      invariant 0 <= count <= |rows| && count <= PageSize
      invariant shown == rows[..count]
    {
      shown := shown + [rows[count]];
      count := count + 1;
    }
    forall id | id in plants && plants[id].status == Planted && Row(id, plants[id]) !in shown
      ensures |shown| == PageSize && forall r | r in shown :: r.rec.plantedAt >= plants[id].plantedAt
    {
      var k :| 0 <= k < |rows| && rows[k] == Row(id, plants[id]);
      assert count <= k;
    }
    if |rows| > 0 {
      assert shown[0] == rows[0];
    }
  }

  /** `/solar-status`: the newest active panels, at most a page of them;
      an empty listing means that no panel is active. */
  method SolarStatus(panels: map<int, Panel>, rows: seq<Row<Panel>>) returns (shown: seq<Row<Panel>>)
    requires IsActivePanelResult(panels, rows)
    ensures |shown| <= PageSize
    ensures forall r | r in shown :: r.id in panels && panels[r.id] == r.rec && r.rec.status == Active
    ensures forall i, j | 0 <= i < j < |shown| :: shown[i].id != shown[j].id && shown[i].rec.placedAt >= shown[j].rec.placedAt
    ensures forall id | id in panels && panels[id].status == Active && Row(id, panels[id]) !in shown ::
      |shown| == PageSize && forall r | r in shown :: r.rec.placedAt >= panels[id].placedAt
    ensures shown == [] <==> forall id | id in panels :: panels[id].status != Active
  {
    shown := [];
    var count := 0;
    while count < |rows| && count < PageSize
      invariant 0 <= count <= |rows| && count <= PageSize
      invariant shown == rows[..count]
    {
      shown := shown + [rows[count]];
      count := count + 1;
    }
    forall id | id in panels && panels[id].status == Active && Row(id, panels[id]) !in shown
      ensures |shown| == PageSize && forall r | r in shown :: r.rec.placedAt >= panels[id].placedAt
    {
      var k :| 0 <= k < |rows| && rows[k] == Row(id, panels[id]);
      assert count <= k;
    }
    if |rows| > 0 {
      assert shown[0] == rows[0];
    }
  }

  datatype Action = Seed | Fertilize | Harvest

  /** One line of the activity log. `plantId` is not shown; it tells apart
      the events of two plants that happen to look alike. */
  datatype LogEntry = LogEntry(plantId: int, user: string, action: Action, location: string, at: nat)

  /** The events one plants row contributes to the log's UNION ALL: its
      seeding, its fertilizing if `fertilized_by` is set, its harvest if
      `harvested_by` is set. Solar panels contribute nothing. */
  function EventsOf(id: int, p: Plant): seq<LogEntry>
  {
    [LogEntry(id, p.username, Seed, p.location, p.plantedAt)]
    + (if p.fertilized.Some? then [LogEntry(id, p.fertilized.value.who, Fertilize, p.location, p.fertilized.value.at)] else [])
    + (if p.harvested.Some? then [LogEntry(id, p.harvested.value.who, Harvest, p.location, p.harvested.value.at)] else [])
  }

  predicate IsEventOf(plants: map<int, Plant>, e: LogEntry)
  {
    e.plantId in plants && e in EventsOf(e.plantId, plants[e.plantId])
  }

  /** `rows` is the log's UNION ALL ordered by `timestamp DESC`, before its
      LIMIT: every event of every plant exactly once, newest first. */
  ghost predicate IsLogOrdering(plants: map<int, Plant>, rows: seq<LogEntry>)
  {
    && (forall i | 0 <= i < |rows| :: IsEventOf(plants, rows[i]))
    && (forall i, j | 0 <= i < j < |rows| :: rows[i] != rows[j] && rows[i].at >= rows[j].at)
    && (forall e | IsEventOf(plants, e) :: e in rows)
  }

  /** SQLite's `LIMIT n`: a negative `n` sets no limit. */
  function SqlLimit<T>(rows: seq<T>, n: int): (r: seq<T>)
    ensures n < 0 ==> r == rows
    ensures 0 <= n ==> |r| == if n < |rows| then n else |rows|
    ensures r == rows[..|r|]
  {
    if n < 0 || |rows| <= n then rows else rows[..n]
  }

  /** The limit `/logs` applies: `anzahl` if it is given, 10 otherwise. */
  function LogLimit(anzahl: Option<int>): (limit: int)
    ensures anzahl.None? ==> limit == DefaultLogLimit
    ensures anzahl.Some? ==> limit == anzahl.value
  {
    if anzahl.Some? then anzahl.value else DefaultLogLimit
  }

  /** `/logs [anzahl]`: the newest `anzahl` plant events (10 if not given),
      newest first; nothing when `anzahl` is zero or negative. */
  method Logs(plants: map<int, Plant>, anzahl: Option<int>, ordered: seq<LogEntry>) returns (shown: seq<LogEntry>)
    requires IsLogOrdering(plants, ordered)
    ensures LogLimit(anzahl) <= 0 ==> shown == []
    ensures 0 < LogLimit(anzahl) ==> |shown| <= LogLimit(anzahl)
    ensures forall e | IsEventOf(plants, e) && e !in shown ::
      |shown| == (if LogLimit(anzahl) < 0 then 0 else LogLimit(anzahl)) && forall s | s in shown :: s.at >= e.at
    ensures forall e | e in shown :: IsEventOf(plants, e)
    ensures forall i, j | 0 <= i < j < |shown| :: shown[i] != shown[j] && shown[i].at >= shown[j].at
  {
    var limit := LogLimit(anzahl);
    var rows := SqlLimit(ordered, limit);
    shown := [];
    var count := 0;
    while count < |rows| && count < limit
      invariant 0 <= count <= |rows|
      invariant count == 0 || count <= limit
      invariant shown == rows[..count]
    {
      shown := shown + [rows[count]];
      count := count + 1;
    }
    assert shown == ordered[..count];
    LogPage(plants, ordered, limit, count);
  }

  /** The first `count` entries of the ordered log, where `count` is what the
      page loop reaches under `limit`, are exactly the `/logs` page. */
  lemma LogPage(plants: map<int, Plant>, ordered: seq<LogEntry>, limit: int, count: nat)
    requires IsLogOrdering(plants, ordered)
    requires count == if limit <= 0 then 0 else if limit < |ordered| then limit else |ordered|
    ensures var shown := ordered[..count];
      && (forall e | IsEventOf(plants, e) && e !in shown ::
            |shown| == (if limit < 0 then 0 else limit) && forall s | s in shown :: s.at >= e.at)
      && (forall e | e in shown :: IsEventOf(plants, e))
      && (forall i, j | 0 <= i < j < |shown| :: shown[i] != shown[j] && shown[i].at >= shown[j].at)
  {
    var shown := ordered[..count];
    forall e | IsEventOf(plants, e) && e !in shown
      ensures |shown| == (if limit < 0 then 0 else limit) && forall s | s in shown :: s.at >= e.at
    {
      OlderThanPrefix(ordered, count, e);
    }
  }

  /** In a newest-first sequence, an entry left out of a prefix is no newer
      than anything in the prefix. */
  lemma OlderThanPrefix(rows: seq<LogEntry>, n: nat, e: LogEntry)
    requires n <= |rows|
    requires forall i, j | 0 <= i < j < |rows| :: rows[i].at >= rows[j].at
    requires e in rows && e !in rows[..n]
    ensures n < |rows|
    ensures forall s | s in rows[..n] :: s.at >= e.at
  {
    var k :| 0 <= k < |rows| && rows[k] == e;
    assert n <= k;
  }
}
