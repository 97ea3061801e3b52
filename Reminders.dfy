/** The reminder engine: the timers a new plant or panel arms, the decision a
    timer takes when it fires (re-read the row, notify only if it still
    matters), and what one minute of the scheduler does to the list of
    pending timers and to the channel. */
module Reminders {
  import opened Entities

  /** One-shot delays of the two fertilizer reminders of a plant, in minutes. */
  const PlantFirstReminder: nat := 35
  const PlantSecondReminder: nat := 55

  /** One-shot delays of the two repair reminders of a solar panel, in minutes. */
  const SolarFirstReminder: nat := 30
  const SolarSecondReminder: nat := 50

  /** `SOLAR_BATTERY_TIME`: a panel has a battery ready every 2 hours. */
  const SolarBatteryHours: nat := 2
  const CollectionPeriod: nat := SolarBatteryHours * 60

  /** Which of the three reminder callbacks a timer runs. */
  datatype ReminderKind = FertilizeReminder | RepairReminder | CollectionReminder

  /** The row a timer or a message is about. */
  datatype EntityRef = PlantRef(id: int) | PanelRef(id: int)

  /** A pending timer of the scheduler. `owner` and `location` are what the
      callback captured when it was armed; `period` is 0 for a one-shot timer
      and the fixed rate of a recurring one. */
  datatype Timer = Timer(
    kind: ReminderKind,
    entityId: int,
    owner: string,
    location: string,
    due: nat,
    period: nat)

  datatype Color = Red | Orange | Green

  datatype Embed = Embed(title: Option<string>, color: Color)

  /** A message the bot sent to the channel: which row it is about, the
      embeds it shows, and the reaction the bot itself added to it. */
  datatype Message = Message(
    about: EntityRef,
    kind: ReminderKind,
    owner: string,
    location: string,
    embeds: seq<Embed>,
    reaction: Option<string>)

  const FertilizeTitle: string := "⚠️ Dünger-Erinnerung!"
  const RepairTitle: string := "⚠️ Solarpanel-Erinnerung!"
  const CollectionTitle: string := "🔋 Batterie bereit!"
  const CheckMark: string := "✅"
  const Wrench: string := "🔧"

  function Target(t: Timer): EntityRef
  {
    if t.kind == FertilizeReminder then PlantRef(t.entityId) else PanelRef(t.entityId)
  }

  /** The acknowledgement reaction the bot adds to a reminder of this kind. */
  function Affordance(kind: ReminderKind): Option<string>
  {
    match kind
    case FertilizeReminder => Some(CheckMark)
    case RepairReminder => Some(Wrench)
    case CollectionReminder => None
  }

  /** The two one-shot timers a freshly seeded plant arms. */
  function PlantTimers(id: int, owner: string, location: string, now: nat): seq<Timer>
  {
    [ Timer(FertilizeReminder, id, owner, location, now + PlantFirstReminder, 0),
      Timer(FertilizeReminder, id, owner, location, now + PlantSecondReminder, 0) ]
  }

  /** The two one-shot repair timers and the recurring collection timer a
      freshly placed panel arms; the recurring one first fires one period
      after placing. */
  function PanelTimers(id: int, owner: string, location: string, now: nat): seq<Timer>
  {
    [ Timer(RepairReminder, id, owner, location, now + SolarFirstReminder, 0),
      Timer(RepairReminder, id, owner, location, now + SolarSecondReminder, 0),
      Timer(CollectionReminder, id, owner, location, now + CollectionPeriod, CollectionPeriod) ]
  }

  /** The embed a reminder of this kind shows: a red fertilizer warning, an
      orange repair warning, or a green battery-ready notice. */
  function ReminderEmbed(kind: ReminderKind): Embed
  {
    match kind
    case FertilizeReminder => Embed(Some(FertilizeTitle), Red)
    case RepairReminder => Embed(Some(RepairTitle), Orange)
    case CollectionReminder => Embed(Some(CollectionTitle), Green)
  }

  /** What a timer does when it fires: re-read its row and either send a
      reminder or stay silent. A fertilizer reminder speaks only to a plant
      that is still planted and not fertilized; a repair or collection reminder
      only to a panel that is still active. */
  function Decide(t: Timer, plants: map<int, Plant>, panels: map<int, Panel>): (m: Option<Message>)
    ensures t.kind == FertilizeReminder ==>
      (m.Some? <==> t.entityId in plants && plants[t.entityId].status == Planted && plants[t.entityId].fertilized.None?)
    ensures t.kind != FertilizeReminder ==>
      (m.Some? <==> t.entityId in panels && panels[t.entityId].status == Active)
    ensures m.Some? ==> m.value.about == Target(t) && m.value.kind == t.kind
    ensures m.Some? ==> m.value.owner == t.owner && m.value.location == t.location
    ensures m.Some? ==> m.value.reaction == Affordance(t.kind) && m.value.embeds == [ReminderEmbed(t.kind)]
  {
    var live :=
      if t.kind == FertilizeReminder
      then t.entityId in plants && plants[t.entityId].status == Planted && plants[t.entityId].fertilized.None?
      else t.entityId in panels && panels[t.entityId].status == Active;
    if live
    then Some(Message(Target(t), t.kind, t.owner, t.location, [ReminderEmbed(t.kind)], Affordance(t.kind)))
    else None
  }

  /** What the scheduler keeps of one timer at minute `now`: a timer not due
      yet stays as it is, a due one-shot timer is gone, a due recurring timer
      comes back one period later. */
  function Rearm(t: Timer, now: nat): seq<Timer>
  {
    if t.due != now then [t]
    else if t.period > 0 then [t.(due := t.due + t.period)]
    else []
  }

  /** The messages the timers due at minute `now` send, in timer order. */
  function Fired(ts: seq<Timer>, now: nat, plants: map<int, Plant>, panels: map<int, Panel>): seq<Message>
  {
    if ts == [] then []
    else
      var t := ts[|ts| - 1];
      Fired(ts[..|ts| - 1], now, plants, panels)
      + (if t.due == now && Decide(t, plants, panels).Some? then [Decide(t, plants, panels).value] else [])
  }

  /** The pending timers after minute `now` has fired. */
  function Rearmed(ts: seq<Timer>, now: nat): seq<Timer>
  {
    if ts == [] then [] else Rearmed(ts[..|ts| - 1], now) + Rearm(ts[|ts| - 1], now)
  }

  /** A message is sent at minute `now` exactly when some timer due then
      decides to send it. */
  lemma {:induction false} FiredExactly(ts: seq<Timer>, now: nat, plants: map<int, Plant>, panels: map<int, Panel>)
    ensures forall m :: m in Fired(ts, now, plants, panels) <==>
      exists t :: t in ts && t.due == now && Decide(t, plants, panels) == Some(m)
  {
    if ts != [] {
      var init, t := ts[..|ts| - 1], ts[|ts| - 1];
      FiredExactly(init, now, plants, panels);
      assert ts == init + [t];
      forall m | m in Fired(ts, now, plants, panels)
        ensures exists u :: u in ts && u.due == now && Decide(u, plants, panels) == Some(m)
      {
        if m in Fired(init, now, plants, panels) {
          var u :| u in init && u.due == now && Decide(u, plants, panels) == Some(m);
          assert u in ts;
        } else {
          assert t in ts;
        }
      }
      forall m | exists u :: u in ts && u.due == now && Decide(u, plants, panels) == Some(m)
        ensures m in Fired(ts, now, plants, panels)
      {
        var u :| u in ts && u.due == now && Decide(u, plants, panels) == Some(m);
        if u != t {
          assert u in init;
        }
      }
    }
  }

  /** A plant that is harvested or deleted (but whose id was handed out) gets
      no reminder, whatever timers fire; likewise a collected or deleted
      panel gets neither a repair nor a collection reminder, even though its
      recurring timer keeps running. */
  lemma RetiredAreSilent(ts: seq<Timer>, now: nat, plants: map<int, Plant>, panels: map<int, Panel>, lastPlant: nat, lastPanel: nat)
    ensures forall k | PlantRetired(plants, lastPlant, k) :: NoneAbout(Fired(ts, now, plants, panels), PlantRef(k))
    ensures forall k | PanelRetired(panels, lastPanel, k) :: NoneAbout(Fired(ts, now, plants, panels), PanelRef(k))
  {
    FiredExactly(ts, now, plants, panels);
  }

  /** No message in `msgs` is about the row `ref`. */
  predicate NoneAbout(msgs: seq<Message>, ref: EntityRef)
  {
    forall m | m in msgs :: m.about != ref
  }

  /** Which timers survive minute `now`: every timer not due stays, every due
      recurring timer is re-armed one period later, and nothing else is kept;
      in particular no timer is ever cancelled early. */
  lemma RearmedExactly(ts: seq<Timer>, now: nat)
    ensures forall t | t in ts && t.due != now :: t in Rearmed(ts, now)
    ensures forall t | t in ts && t.due == now && t.period > 0 :: t.(due := now + t.period) in Rearmed(ts, now)
    ensures forall r | r in Rearmed(ts, now) ::
      (r in ts && r.due != now) || (r.period > 0 && r.due == now + r.period && r.(due := now) in ts)
  {
    RearmedKeepsPending(ts, now);
    RearmedRearmsRecurring(ts, now);
    RearmedOnlyFrom(ts, now);
  }

  lemma {:induction false} RearmedKeepsPending(ts: seq<Timer>, now: nat)
    ensures forall t | t in ts && t.due != now :: t in Rearmed(ts, now)
  {
    if ts != [] {
      var init, t := ts[..|ts| - 1], ts[|ts| - 1];
      RearmedKeepsPending(init, now);
      assert ts == init + [t];
    }
  }

  lemma {:induction false} RearmedRearmsRecurring(ts: seq<Timer>, now: nat)
    ensures forall t | t in ts && t.due == now && t.period > 0 :: t.(due := now + t.period) in Rearmed(ts, now)
  {
    if ts != [] {
      var init, t := ts[..|ts| - 1], ts[|ts| - 1];
      RearmedRearmsRecurring(init, now);
      assert ts == init + [t];
    }
  }

  lemma {:induction false} RearmedOnlyFrom(ts: seq<Timer>, now: nat)
    ensures forall r | r in Rearmed(ts, now) ::
      (r in ts && r.due != now) || (r.period > 0 && r.due == now + r.period && r.(due := now) in ts)
  {
    if ts != [] {
      var init, t := ts[..|ts| - 1], ts[|ts| - 1];
      RearmedOnlyFrom(init, now);
      assert ts == init + [t];
      if t.due == now && t.period > 0 {
        assert t.(due := now + t.period).(due := now) == t;
      }
    }
  }

  /** The scheduler loses no timer it did not fire: the number of pending
      timers drops by exactly the number of due one-shot timers. */
  function DueOneShots(ts: seq<Timer>, now: nat): nat
  {
    if ts == [] then 0
    else DueOneShots(ts[..|ts| - 1], now) + (if ts[|ts| - 1].due == now && ts[|ts| - 1].period == 0 then 1 else 0)
  }

  lemma {:induction false} RearmedCount(ts: seq<Timer>, now: nat)
    ensures |Rearmed(ts, now)| == |ts| - DueOneShots(ts, now)
  {
    if ts != [] {
      RearmedCount(ts[..|ts| - 1], now);
    }
  }

  /** The reaper deletes only finished rows, which no reminder speaks to, so
      it makes no difference to what fires whether it runs first. */
  lemma {:induction false} FiredIgnoresReaper(ts: seq<Timer>, now: nat, plants: map<int, Plant>, panels: map<int, Panel>, at: nat)
    ensures Fired(ts, now, ReapPlants(plants, at), ReapPanels(panels, at)) == Fired(ts, now, plants, panels)
  {
    if ts != [] {
      var t := ts[|ts| - 1];
      FiredIgnoresReaper(ts[..|ts| - 1], now, plants, panels, at);
      assert Decide(t, ReapPlants(plants, at), ReapPanels(panels, at)) == Decide(t, plants, panels);
    }
  }
}
