/** The reaction listener: a user's ✅ or 🔧 under a reminder only changes
    how that message looks; it never writes to the tables. */
module Reactions {
  import opened Entities
  import opened Reminders

  /** A reaction's emoji: a Unicode emoji, or a server's custom emoji. */
  datatype Emoji = Unicode(text: string) | Custom(name: string)

  datatype ReactionEvent = ReactionEvent(byBot: bool, emoji: Emoji)

  const FertilizeKey: string := "Dünger-Erinnerung"
  const RepairKey: string := "Solarpanel-Erinnerung"
  const DoneTitle: string := "✅ Erinnerung erledigt!"
  const RepairedTitle: string := "🔧 Repariert!"

  /** `key` occurs in `s` starting at index `i`. */
  predicate OccursAt(s: string, key: string, i: int)
  {
    0 <= i && i + |key| <= |s| && s[i..i + |key|] == key
  }

  /** Java's `String.contains`. */
  predicate Contains(s: string, key: string)
  {
    exists i | 0 <= i <= |s| - |key| :: OccursAt(s, key, i)
  }

  /** The first embed of the message has a title containing `key`. */
  predicate TitleContains(msg: Message, key: string)
  {
    |msg.embeds| > 0 && msg.embeds[0].title.Some? && Contains(msg.embeds[0].title.value, key)
  }

  /** The message's embeds replaced by its first embed, retitled and green. */
  function Retitled(msg: Message, title: string): Message
    requires |msg.embeds| > 0
  {
    msg.(embeds := [msg.embeds[0].(title := Some(title), color := Green)])
  }

  /** The reaction matches the message: ✅ under a fertilizer reminder, or
      🔧 under a solar repair reminder, from a user who is not a bot. */
  predicate Acknowledges(ev: ReactionEvent, msg: Message)
  {
    && !ev.byBot
    && ev.emoji.Unicode?
    && ((ev.emoji.text == CheckMark && TitleContains(msg, FertilizeKey))
        || (ev.emoji.text == Wrench && TitleContains(msg, RepairKey)))
  }

  /** The message after the listener has seen the reaction. */
  function React(ev: ReactionEvent, msg: Message): (r: Message)
    ensures r.about == msg.about && r.kind == msg.kind && r.reaction == msg.reaction
    ensures r.owner == msg.owner && r.location == msg.location
    ensures !Acknowledges(ev, msg) ==> r == msg
    ensures Acknowledges(ev, msg) ==>
      && |r.embeds| == 1 && r.embeds[0].color == Green
      && r.embeds[0].title == Some(if ev.emoji.text == CheckMark then DoneTitle else RepairedTitle)
  {
    if !Acknowledges(ev, msg) then msg
    else Retitled(msg, if ev.emoji.text == CheckMark then DoneTitle else RepairedTitle)
  }

  /** A text that lacks the first character of `key` cannot contain `key`. */
  lemma LacksFirstChar(s: string, key: string)
    requires |key| > 0
    requires forall j | 0 <= j < |s| :: s[j] != key[0]
    ensures !Contains(s, key)
  {
    forall i | 0 <= i <= |s| - |key|
      ensures !OccursAt(s, key, i)
    {
      assert s[i..i + |key|][0] == s[i];
    }
  }

  /** Neither acknowledged title matches either reminder's key. */
  lemma AcknowledgedTitlesMatchNothing()
    ensures !Contains(DoneTitle, FertilizeKey) && !Contains(DoneTitle, RepairKey)
    ensures !Contains(RepairedTitle, FertilizeKey) && !Contains(RepairedTitle, RepairKey)
  {
    LacksFirstChar(DoneTitle, FertilizeKey);
    LacksFirstChar(DoneTitle, RepairKey);
  }

  /** Once a message has been acknowledged, no later reaction changes it, so a
      repeated ✅ or 🔧 is a no-op. */
  lemma AcknowledgedIsFinal(ev: ReactionEvent, later: ReactionEvent, msg: Message)
    requires Acknowledges(ev, msg)
    ensures React(later, React(ev, msg)) == React(ev, msg)
  {
    AcknowledgedTitlesMatchNothing();
  }

  lemma ReactIsIdempotent(ev: ReactionEvent, msg: Message)
    ensures React(ev, React(ev, msg)) == React(ev, msg)
  {
    if Acknowledges(ev, msg) {
      AcknowledgedIsFinal(ev, ev, msg);
    }
  }

  /** The two acknowledgements do not cross: ✅ leaves a solar repair
      reminder alone, 🔧 leaves a fertilizer reminder alone, and nothing
      changes a battery-ready message. */
  lemma NoCrossMatch(t: Timer, plants: map<int, Plant>, panels: map<int, Panel>, ev: ReactionEvent)
    requires Decide(t, plants, panels).Some?
    requires t.kind == CollectionReminder || ev.emoji != Unicode(Affordance(t.kind).value)
    ensures React(ev, Decide(t, plants, panels).value) == Decide(t, plants, panels).value
  {
    LacksFirstChar(FertilizeTitle, RepairKey);
    LacksFirstChar(RepairTitle, FertilizeKey);
    LacksFirstChar(CollectionTitle, FertilizeKey);
    LacksFirstChar(CollectionTitle, RepairKey);
  }

  /** The matching acknowledgement from a user does retitle a fresh reminder. */
  lemma MatchingReactionAcknowledges(t: Timer, plants: map<int, Plant>, panels: map<int, Panel>)
    requires Decide(t, plants, panels).Some? && t.kind != CollectionReminder
    ensures Acknowledges(ReactionEvent(false, Unicode(Affordance(t.kind).value)), Decide(t, plants, panels).value)
  {
    if t.kind == FertilizeReminder {
      FertilizeTitleHasKey();
    } else {
      RepairTitleHasKey();
    }
  }

  lemma FertilizeTitleHasKey()
    ensures Contains(FertilizeTitle, FertilizeKey)
  {
    assert OccursAt(FertilizeTitle, FertilizeKey, 3);
  }

  lemma RepairTitleHasKey()
    ensures Contains(RepairTitle, RepairKey)
  {
    var prefix := RepairTitle[..3];
    assert RepairTitle == prefix + RepairKey + "!";
    assert OccursAt(prefix + RepairKey + "!", RepairKey, |prefix|);
  }
}
