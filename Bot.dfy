/** The bot's state and its commands: the two tables with their
    auto-increment counters, the clock, the scheduler's pending timers and the
    reminder messages sent so far. Every command and every minute of the
    clock keeps harvested and collected rows final, and no reminder ever
    speaks to such a row. */
module Bot {
  import opened Entities
  import opened Reminders
  import opened Reactions

  class RusskayaBot {
    /** The plants table, by id. */
    var plants: map<int, Plant>
    /** The solar_panels table, by id. */
    var panels: map<int, Panel>
    /** The largest plant id ever handed out (SQLite's AUTOINCREMENT counter). */
    var lastPlantId: nat
    /** The largest panel id ever handed out. */
    var lastPanelId: nat
    /** The clock, in minutes since the bot started. */
    var now: nat
    /** The scheduler's pending timers. */
    var timers: seq<Timer>
    /** The reminder messages sent to the channel, oldest first. */
    var sent: seq<Message>

    /** Every row is well formed and its id was handed out. */
    ghost predicate RowsValid()
      reads this
    {
      && (forall id | id in plants :: 1 <= id <= lastPlantId && PlantWellFormed(plants[id], now))
      && (forall id | id in panels :: 1 <= id <= lastPanelId && PanelWellFormed(panels[id], now))
    }

    /** Every row is valid and every pending timer is due after minute `after`. */
    ghost predicate DueAfter(after: int)
      reads this
    {
      RowsValid() && forall t | t in timers :: after < t.due
    }

    /** Between two minutes: no pending timer is due yet. */
    ghost predicate Valid()
      reads this
    {
      DueAfter(now)
    }

    /** At the start of a minute: the timers due now have not fired yet. */
    ghost predicate Ready()
      reads this
    {
      DueAfter(now - 1)
    }

    /** Startup: empty tables, and the reaper's first run at minute 0 finds
        nothing to delete. */
    constructor ()
      ensures Valid()
      ensures plants == map[] && panels == map[] && lastPlantId == 0 && lastPanelId == 0
      ensures now == 0 && timers == [] && sent == []
    {
      plants, panels := map[], map[];
      lastPlantId, lastPanelId := 0, 0;
      now := 0;
      timers, sent := [], [];
    }

    /** `/pflanze-säen`: insert a planted row under a fresh id and arm its two
        fertilizer reminders. */
    method SeedPlant(userId: string, username: string, location: string) returns (id: int)
      requires Valid()
      modifies this
      ensures Valid()
      ensures id == old(lastPlantId) + 1 && lastPlantId == id
      ensures forall k | k in old(plants) :: k < id
      ensures plants == old(plants)[id := NewPlant(userId, username, location, now)]
      ensures timers == old(timers) + PlantTimers(id, username, location, now)
      ensures panels == old(panels) && lastPanelId == old(lastPanelId)
      ensures now == old(now) && sent == old(sent)
      ensures forall k | PlantRetired(old(plants), old(lastPlantId), k) :: PlantRetired(plants, lastPlantId, k)
    {
      id := lastPlantId + 1;
      lastPlantId := id;
      plants := plants[id := NewPlant(userId, username, location, now)];
      timers := timers + PlantTimers(id, username, location, now);
    }

    /** `/pflanze-düngen`: only a planted plant can be fertilized; the mark is
        overwritten if it was already set, and nothing else changes. */
    method FertilizePlant(id: int, username: string) returns (ok: bool)
      requires Valid()
      modifies this
      ensures Valid()
      ensures ok <==> id in old(plants) && old(plants)[id].status == Planted
      ensures plants == if ok then old(plants)[id := old(plants)[id].(fertilized := Some(Mark(username, now)))]
                        else old(plants)
      ensures panels == old(panels) && lastPlantId == old(lastPlantId) && lastPanelId == old(lastPanelId)
      ensures now == old(now) && timers == old(timers) && sent == old(sent)
      ensures forall k | PlantRetired(old(plants), old(lastPlantId), k) :: PlantRetired(plants, lastPlantId, k)
    {
      ok := id in plants && plants[id].status == Planted;
      if !ok {
        return;
      }
      plants := plants[id := plants[id].(fertilized := Some(Mark(username, now)))];
    }

    /** `/pflanze-ernten`: a compare-and-set from 'planted' to 'harvested'.
        Fertilizing is not required; the plant's timers are not cancelled. */
    method HarvestPlant(id: int, username: string, car: string) returns (ok: bool)
      requires Valid()
      modifies this
      ensures Valid()
      ensures ok <==> id in old(plants) && old(plants)[id].status == Planted
      ensures plants == if ok then old(plants)[id := old(plants)[id].(status := Harvested, harvested := Some(Stored(username, now, car)))]
                        else old(plants)
      ensures ok ==> PlantRetired(plants, lastPlantId, id)
      ensures panels == old(panels) && lastPlantId == old(lastPlantId) && lastPanelId == old(lastPanelId)
      ensures now == old(now) && timers == old(timers) && sent == old(sent)
      ensures forall k | PlantRetired(old(plants), old(lastPlantId), k) :: PlantRetired(plants, lastPlantId, k)
    {
      ok := id in plants && plants[id].status == Planted;
      if !ok {
        return;
      }
      plants := plants[id := plants[id].(status := Harvested, harvested := Some(Stored(username, now, car)))];
    }

    /** `/solar-aufstellen`: insert an active row under a fresh id and arm its
        two repair reminders and its recurring collection reminder. */
    method PlaceSolar(userId: string, username: string, location: string) returns (id: int)
      requires Valid()
      modifies this
      ensures Valid()
      ensures id == old(lastPanelId) + 1 && lastPanelId == id
      ensures forall k | k in old(panels) :: k < id
      ensures panels == old(panels)[id := NewPanel(userId, username, location, now)]
      ensures timers == old(timers) + PanelTimers(id, username, location, now)
      ensures plants == old(plants) && lastPlantId == old(lastPlantId)
      ensures now == old(now) && sent == old(sent)
      ensures forall k | PanelRetired(old(panels), old(lastPanelId), k) :: PanelRetired(panels, lastPanelId, k)
    {
      id := lastPanelId + 1;
      lastPanelId := id;
      panels := panels[id := NewPanel(userId, username, location, now)];
      timers := timers + PanelTimers(id, username, location, now);
    }

    /** `/solar-sammeln`: a compare-and-set from 'active' to 'collected'. The
        panel's recurring collection timer keeps running. */
    method CollectSolar(id: int, username: string, car: string) returns (ok: bool)
      requires Valid()
      modifies this
      ensures Valid()
      ensures ok <==> id in old(panels) && old(panels)[id].status == Active
      ensures panels == if ok then old(panels)[id := old(panels)[id].(status := Collected, collected := Some(Stored(username, now, car)))]
                        else old(panels)
      ensures ok ==> PanelRetired(panels, lastPanelId, id)
      ensures plants == old(plants) && lastPlantId == old(lastPlantId) && lastPanelId == old(lastPanelId)
      ensures now == old(now) && timers == old(timers) && sent == old(sent)
      ensures forall k | PanelRetired(old(panels), old(lastPanelId), k) :: PanelRetired(panels, lastPanelId, k)
    {
      ok := id in panels && panels[id].status == Active;
      if !ok {
        return;
      }
      panels := panels[id := panels[id].(status := Collected, collected := Some(Stored(username, now, car)))];
    }

    /** The daily reaper: delete harvested plants and collected panels whose
        terminal time is more than 7 days ago. Timers are left alone. */
    method Cleanup()
      requires Valid()
      modifies this
      ensures Valid()
      ensures plants == ReapPlants(old(plants), now) && panels == ReapPanels(old(panels), now)
      ensures lastPlantId == old(lastPlantId) && lastPanelId == old(lastPanelId)
      ensures now == old(now) && timers == old(timers) && sent == old(sent)
      ensures forall k | PlantRetired(old(plants), old(lastPlantId), k) :: PlantRetired(plants, lastPlantId, k)
      ensures forall k | PanelRetired(old(panels), old(lastPanelId), k) :: PanelRetired(panels, lastPanelId, k)
    {
      plants := ReapPlants(plants, now);
      panels := ReapPanels(panels, now);
    }

    /** One minute passes: the reaper runs if a day is complete, then every
        timer due now fires. Whether the reaper ran first makes no difference
        to what is sent. */
    method Tick()
      requires Valid()
      modifies this
      ensures Valid()
      ensures now == old(now) + 1
      ensures plants == (if now % CleanupPeriod == 0 then ReapPlants(old(plants), now) else old(plants))
      ensures panels == (if now % CleanupPeriod == 0 then ReapPanels(old(panels), now) else old(panels))
      ensures lastPlantId == old(lastPlantId) && lastPanelId == old(lastPanelId)
      ensures timers == Rearmed(old(timers), now)
      ensures sent == old(sent) + Fired(old(timers), now, old(plants), old(panels))
      ensures forall k | PlantRetired(old(plants), old(lastPlantId), k) :: PlantRetired(plants, lastPlantId, k)
      ensures forall k | PanelRetired(old(panels), old(lastPanelId), k) :: PanelRetired(panels, lastPanelId, k)
      ensures forall k | PlantRetired(old(plants), old(lastPlantId), k) :: NoneAbout(sent[|old(sent)|..], PlantRef(k))
      ensures forall k | PanelRetired(old(panels), old(lastPanelId), k) :: NoneAbout(sent[|old(sent)|..], PanelRef(k))
    {
      now := now + 1;
      if now % CleanupPeriod == 0 {
        plants := ReapPlants(plants, now);
        panels := ReapPanels(panels, now);
      }
      FiredIgnoresReaper(timers, now, old(plants), old(panels), now);
      FireTimers();
    }

    /** The scheduler's part of a minute: every timer due now fires against
        the current tables, in order; one-shot timers are dropped and
        recurring ones re-armed one period later. */
    method FireTimers()
      requires Ready()
      modifies this
      ensures Valid()
      ensures plants == old(plants) && panels == old(panels)
      ensures lastPlantId == old(lastPlantId) && lastPanelId == old(lastPanelId) && now == old(now)
      ensures timers == Rearmed(old(timers), now)
      ensures sent == old(sent) + Fired(old(timers), now, plants, panels)
      ensures forall k | PlantRetired(plants, lastPlantId, k) :: NoneAbout(sent[|old(sent)|..], PlantRef(k))
      ensures forall k | PanelRetired(panels, lastPanelId, k) :: NoneAbout(sent[|old(sent)|..], PanelRef(k))
    {
      var next, out := FireDue(timers, now, plants, panels);
      RearmedExactly(timers, now);
      RetiredAreSilent(timers, now, plants, panels, lastPlantId, lastPanelId);
      timers := next;
      sent := sent + out;
      assert sent[|old(sent)|..] == out;
    }

    /** A user reacts to the `index`-th sent message: only that message's
        embeds may change; a message that cannot be found is ignored. */
    method OnReactionAdd(ev: ReactionEvent, index: int)
      requires Valid()
      modifies this
      ensures Valid()
      ensures sent == if 0 <= index < |old(sent)| then old(sent)[index := React(ev, old(sent)[index])] else old(sent)
      ensures plants == old(plants) && panels == old(panels)
      ensures lastPlantId == old(lastPlantId) && lastPanelId == old(lastPanelId)
      ensures now == old(now) && timers == old(timers)
    {
      if 0 <= index < |sent| {
        sent := sent[index := React(ev, sent[index])];
      }
    }
  }

  /** The scheduler's work at minute `now`: run every timer due then, in
      order, against one snapshot of the tables, and collect what stays armed. */
  method FireDue(timers: seq<Timer>, now: nat, plants: map<int, Plant>, panels: map<int, Panel>)
    returns (next: seq<Timer>, out: seq<Message>)
    ensures next == Rearmed(timers, now)
    ensures out == Fired(timers, now, plants, panels)
  {
    var i := 0;
    next, out := [], [];
    while i < |timers|
      invariant 0 <= i <= |timers|
      invariant next == Rearmed(timers[..i], now)
      invariant out == Fired(timers[..i], now, plants, panels)
    {
      var t := timers[i];
      assert timers[..i + 1] == timers[..i] + [t];
      if t.due == now {
        var m := Decide(t, plants, panels);
        if m.Some? {
          out := out + [m.value];
        }
        if t.period > 0 {
          next := next + [t.(due := t.due + t.period)];
        }
      } else {
        next := next + [t];
      }
      i := i + 1;
    }
    assert timers[..i] == timers;
  }

  /** Harvesting is a compare-and-set: of two harvests of the same plant, at
      most the first succeeds, and a harvested plant is never reminded again. */
  method HarvestTwice(bot: RusskayaBot, id: int, username: string, car: string) returns (first: bool, second: bool)
    requires bot.Valid()
    modifies bot
    ensures bot.Valid()
    ensures !second
    ensures first <==> id in old(bot.plants) && old(bot.plants)[id].status == Planted
  {
    first := bot.HarvestPlant(id, username, car);
    second := bot.HarvestPlant(id, username, car);
  }

  /** Collecting is a compare-and-set as well: of two collections of the same
      panel, at most the first succeeds. */
  method CollectTwice(bot: RusskayaBot, id: int, username: string, car: string) returns (first: bool, second: bool)
    requires bot.Valid()
    modifies bot
    ensures bot.Valid()
    ensures !second
    ensures first <==> id in old(bot.panels) && old(bot.panels)[id].status == Active
  {
    first := bot.CollectSolar(id, username, car);
    second := bot.CollectSolar(id, username, car);
  }
}
