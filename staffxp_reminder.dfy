/**
 * staffxp_reminder.py: every Saturday, staff are reminded to claim their weekly helper
 * XP with one message that pings the Helper role and carries a fixed embed.
 */
module StaffXpReminder {
  import opened Wrappers
  import opened Text
  import opened Calendar
  import opened Discord
  import Utils
  import TattooParlor

  /** The reminder is given at 17:00 UTC; the firing is not modelled. */
  const ReminderHour := 17
  /** 0 = Monday .. 6 = Sunday */
  const Weekdays: seq<int> := [5]

  /** `should_remind_today`: today's weekday is one of WEEKDAYS. */
  predicate ShouldRemindToday(today: Date) {
    Weekday(today) in Weekdays
  }

  lemma ShouldRemindIffSaturday(today: Date)
    ensures ShouldRemindToday(today) <==> Weekday(today) == 5
  {
  }

  /** Days a whole number of weeks apart get the same answer. */
  lemma RemindWeekly(a: Date, b: Date, q: int)
    requires Ordinal(b) == Ordinal(a) + 7 * q
    ensures ShouldRemindToday(a) == ShouldRemindToday(b)
  {
    WeekdayPeriodic(a, b, q);
  }

  /** The reminder day is the eve of the tattoo parlor's refresh day. */
  lemma ReminderOnRefreshEve(d: Date)
    requires d != LastDate
    ensures ShouldRemindToday(d) <==> TattooParlor.ShouldRefreshToday(NextDay(d))
  {
    NextDayWeekday(d);
  }

  const Title := "Weekly Helper XP"
  const Footer := "Created by Griz ╠Octavia⁹╬Lucky⁵╬Yasmin⁶╣ • Repeats weekly"
  const FallbackMention := "@Helper"

  /** The six pieces the reminder text is built from, in order. */
  const Line1 := "Each week @Helper will receive a ping in #helper-spam to claim their weekly "
  const Line2 := "helper xp. This is a bonus that is given to active members of staff for their "
  const Line3 := "contributions toward helping run Enter Ravenloft. If you've been active in helper "
  const Line4 := "roles throughout the week you can use the `!staffxp` command here to claim this "
  const Line5 := "bonus. This is mostly an honour system and we ask that if you feel/know that you "
  const Line6 := "have not been \"active\" in the previous week, you do not claim it."

  /** The message content: the given role's mention, or the literal `@Helper`. */
  function Helpers(mentionRole: Option<Role>): (r: string)
    ensures mentionRole.None? ==> r == FallbackMention
    ensures mentionRole.Some? ==> r == Utils.RoleMention(mentionRole.value.id)
  {
    match mentionRole
    case Some(role) => Utils.RoleMention(role.id)
    case None => FallbackMention
  }

  /** A given role is pinged by its own id; the fallback never reads as a role mention. */
  lemma HelpersNamesRole(mentionRole: Option<Role>)
    ensures var h := Helpers(mentionRole);
      (mentionRole.Some? <==> |h| >= 5 && h[..3] == "<@&") &&
      (mentionRole.Some? ==> Utils.MentionedId(h) == mentionRole.value.id)
  {
    if mentionRole.Some? {
      Utils.RoleMentionRoundTrip(mentionRole.value.id);
    } else {
      assert Helpers(mentionRole)[..3] == "@He";
    }
  }

  /** The reminder `send_reminder` posts. */
  function Reminder(mentionRole: Option<Role>): (r: Message)
    ensures r.content == Some(Helpers(mentionRole))
    ensures r.embed.Some? && r.embed.value.title == Title && r.embed.value.footer == Footer
    ensures r.embed.value.fields == []
    ensures r.embed.value.description == Line1 + Line2 + Line3 + Line4 + Line5 + Line6
  {
    Message(Some(Helpers(mentionRole)),
            Some(Embed(Title, Line1 + Line2 + Line3 + Line4 + Line5 + Line6, [], Footer)))
  }

  /** Only the content depends on the role: the embed is the same for everyone. */
  lemma ReminderEmbedFixed(a: Option<Role>, b: Option<Role>)
    ensures Reminder(a).embed == Reminder(b).embed
    ensures Reminder(a) == Reminder(b) <==> Helpers(a) == Helpers(b)
  {
  }

  /**
   * `send_reminder(channel, mention_role)`: builds the text piece by piece and sends
   * exactly one message, carrying the mention as content and the reminder embed.
   */
  method SendReminder(channel: Channel, mentionRole: Option<Role> := None)
    modifies channel
    ensures channel.sent == old(channel.sent) + [Reminder(mentionRole)]
  {
    var helpers := Helpers(mentionRole);
    var text := Line1;
    text := text + Line2;
    text := text + Line3;
    text := text + Line4;
    text := text + Line5;
    text := text + Line6;
    var reminder := Embed(Title, text, [], Footer);
    channel.Send(Message(Some(helpers), Some(reminder)));
  }
}
