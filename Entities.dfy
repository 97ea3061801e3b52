/** The two tables of the bot, `plants` and `solar_panels`, as record types,
    the invariant every stored row keeps, and the daily reaper that deletes
    old finished rows. Timestamps are whole minutes on the bot's clock. */
module Entities {

  datatype Option<T> = None | Some(value: T)

  /** The `status` column of the plants table ('planted' or 'harvested'). */
  datatype PlantStatus = Planted | Harvested

  /** The `status` column of the solar_panels table ('active' or 'collected'). */
  datatype PanelStatus = Active | Collected

  /** A pair of columns `<x>_by` / `<x>_at`: who did it (a user name) and when. */
  datatype Mark = Mark(who: string, at: nat)

  /** The columns written together by a harvest or a collect:
      `<x>_by`, `<x>_at` and `car_stored`. */
  datatype Stored = Stored(who: string, at: nat, car: string)

  /** One row of `plants`; `fertilized` is `fertilized_by`/`fertilized_at`,
      `harvested` is `harvested_by`/`harvested_at`/`car_stored`. */
  datatype Plant = Plant(
    userId: string,
    username: string,
    plantedAt: nat,
    location: string,
    status: PlantStatus,
    fertilized: Option<Mark>,
    harvested: Option<Stored>)

  /** One row of `solar_panels`; `collected` is `collected_by`/`collected_at`/`car_stored`. */
  datatype Panel = Panel(
    userId: string,
    username: string,
    placedAt: nat,
    location: string,
    status: PanelStatus,
    collected: Option<Stored>)

  /** Retention window of the reaper: 7 days, in minutes. */
  const RetentionMinutes: nat := 7 * 24 * 60

  /** Period of the reaper: 24 hours, in minutes. */
  const CleanupPeriod: nat := 24 * 60

  /** The row an INSERT with only user_id, username and location produces:
      every other column takes its default. */
  function NewPlant(userId: string, username: string, location: string, now: nat): Plant
  {
    Plant(userId, username, now, location, Planted, None, None)
  }

  function NewPanel(userId: string, username: string, location: string, now: nat): Panel
  {
    Panel(userId, username, now, location, Active, None)
  }

  /** What the handlers keep true of every plants row: the harvest columns are
      set exactly when the status is 'harvested', and no timestamp lies in the
      future or before the planting. */
  predicate PlantWellFormed(p: Plant, now: nat)
  {
    && p.plantedAt <= now
    && (p.status == Harvested <==> p.harvested.Some?)
    && (p.fertilized.Some? ==> p.plantedAt <= p.fertilized.value.at <= now)
    && (p.harvested.Some? ==> p.plantedAt <= p.harvested.value.at <= now)
    && (p.fertilized.Some? && p.harvested.Some? ==> p.fertilized.value.at <= p.harvested.value.at)
  }

  predicate PanelWellFormed(p: Panel, now: nat)
  {
    && p.placedAt <= now
    && (p.status == Collected <==> p.collected.Some?)
    && (p.collected.Some? ==> p.placedAt <= p.collected.value.at <= now)
  }

  /** A plant id that was handed out and can never be 'planted' again: its row
      is harvested, or it was deleted (ids are never reused). */
  predicate PlantRetired(plants: map<int, Plant>, lastId: nat, id: int)
  {
    1 <= id <= lastId && (id !in plants || plants[id].status == Harvested)
  }

  predicate PanelRetired(panels: map<int, Panel>, lastId: nat, id: int)
  {
    1 <= id <= lastId && (id !in panels || panels[id].status == Collected)
  }

  /** The reaper's guard: `status = 'harvested' AND harvested_at < now - 7 days`
      (a NULL harvested_at never compares true). */
  predicate PlantExpired(p: Plant, now: nat)
  {
    p.status == Harvested && p.harvested.Some? && p.harvested.value.at + RetentionMinutes < now
  }

  predicate PanelExpired(p: Panel, now: nat)
  {
    p.status == Collected && p.collected.Some? && p.collected.value.at + RetentionMinutes < now
  }

  /** The plants table after the reaper's DELETE. */
  function ReapPlants(plants: map<int, Plant>, now: nat): (r: map<int, Plant>)
    ensures forall id | id in r :: id in plants && r[id] == plants[id]
    ensures forall id | id in plants && plants[id].status == Planted :: id in r
    ensures forall id | id in plants && PlantExpired(plants[id], now) :: id !in r
    ensures forall id | id in plants && id !in r :: PlantExpired(plants[id], now)
    ensures forall id | id in plants && plants[id].harvested.Some? && now <= plants[id].harvested.value.at + RetentionMinutes :: id in r
  {
    map id | id in plants && !PlantExpired(plants[id], now) :: plants[id]
  }

  /** The solar_panels table after the reaper's DELETE. */
  function ReapPanels(panels: map<int, Panel>, now: nat): (r: map<int, Panel>)
    ensures forall id | id in r :: id in panels && r[id] == panels[id]
    ensures forall id | id in panels && panels[id].status == Active :: id in r
    ensures forall id | id in panels && PanelExpired(panels[id], now) :: id !in r
    ensures forall id | id in panels && id !in r :: PanelExpired(panels[id], now)
    ensures forall id | id in panels && panels[id].collected.Some? && now <= panels[id].collected.value.at + RetentionMinutes :: id in r
  {
    map id | id in panels && !PanelExpired(panels[id], now) :: panels[id]
  }

  /** Running the reaper twice at the same time deletes nothing more. */
  lemma ReapIsIdempotent(plants: map<int, Plant>, panels: map<int, Panel>, now: nat)
    ensures ReapPlants(ReapPlants(plants, now), now) == ReapPlants(plants, now)
    ensures ReapPanels(ReapPanels(panels, now), now) == ReapPanels(panels, now)
  {
  }
}
