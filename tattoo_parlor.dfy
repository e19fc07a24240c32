/**
 * tattoo_parlor.py: the White Gold Hana Den's tattoo list refreshes every Sunday by
 * running an external generator script and posting its output in two pieces, cut at the
 * '@Players' announcement.
 */
module TattooParlor {
  import opened Wrappers
  import opened Text
  import opened Calendar
  import opened Discord
  import opened Effects
  import Utils

  const ScriptUrl := "https://raw.githubusercontent.com/ItsQc/Ravenloft-Tables/main/tattooGenerator.py"
  const OutputChannel := "helper-spam"
  /** The 23:00 firing time belongs to the task scheduler, which is not modelled. */
  const RefreshHour := 23
  /** 0 = Monday .. 6 = Sunday */
  const RefreshWeekdays: seq<int> := [6]

  const AnnouncementMarker := "@Players"

  /** `_should_refresh_today`: today's weekday is one of REFRESH_WEEKDAYS. */
  predicate ShouldRefreshToday(today: Date) {
    Weekday(today) in RefreshWeekdays
  }

  lemma ShouldRefreshIffSunday(today: Date)
    ensures ShouldRefreshToday(today) <==> Weekday(today) == 6
  {
  }

  /** Days a whole number of weeks apart get the same answer. */
  lemma RefreshWeekly(a: Date, b: Date, q: int)
    requires Ordinal(b) == Ordinal(a) + 7 * q
    ensures ShouldRefreshToday(a) == ShouldRefreshToday(b)
  {
    WeekdayPeriodic(a, b, q);
  }

  /** The day after a refresh day is a Monday and so not a refresh day. */
  lemma NoRefreshAfterSunday(d: Date)
    requires d != LastDate && ShouldRefreshToday(d)
    ensures Weekday(NextDay(d)) == 0 && !ShouldRefreshToday(NextDay(d))
  {
    NextDayWeekday(d);
  }

  /** Two distinct days less than a week apart are never both refresh days. */
  lemma OneRefreshPerWeek(a: Date, b: Date)
    requires Ordinal(a) < Ordinal(b) < Ordinal(a) + 7
    ensures !(ShouldRefreshToday(a) && ShouldRefreshToday(b))
  {
  }

  /**
   * `_chunk_output`: cuts the text at the first '@Players' into the tattoo list and the
   * announcement; `str.index` raises ValueError when '@Players' is missing.
   */
  function ChunkOutput(output: string): (r: Result<seq<string>, Fault>)
    ensures r.Success? <==> Contains(output, AnnouncementMarker)
    ensures r.Failure? ==> r.error == ValueError(AnnouncementMarker)
    ensures r.Success? ==> |r.value| == 2 && r.value[0] + r.value[1] == output
    ensures r.Success? ==> StartsWith(r.value[1], AnnouncementMarker)
  {
    match Index(output, AnnouncementMarker)
    case None => Failure(ValueError(AnnouncementMarker))
    case Some(announcementIndex) =>
      var tattoos := output[..announcementIndex];
      var announcement := output[announcementIndex..];
      assert tattoos + announcement == output;
      Success([tattoos, announcement])
  }

  /** The tattoo chunk never holds '@Players': the cut is at its first occurrence. */
  lemma TattoosHaveNoAnnouncement(output: string)
    requires ChunkOutput(output).Success?
    ensures !Contains(ChunkOutput(output).value[0], AnnouncementMarker)
  {
    var i := Index(output, AnnouncementMarker).value;
    var tattoos := output[..i];
    forall k | OccursAt(tattoos, AnnouncementMarker, k) ensures false {
      assert tattoos[k..k + |AnnouncementMarker|] == output[k..k + |AnnouncementMarker|];
      assert OccursAt(output, AnnouncementMarker, k);
    }
  }

  /**
   * `refresh(guild, output_channel, force)`: skips a non-scheduled day unless forced;
   * otherwise looks up the channel by name, runs the generator script, chunks its output
   * and sends both chunks, in order. A missing '@Players' raises before anything is sent;
   * an unknown channel name fails at the first send.
   */
  method Refresh(today: Date, channels: seq<Channel>, script: Utils.ScriptRunner,
                 outputChannel: string := OutputChannel, force: bool := false)
    returns (r: Outcome)
    modifies script, channels
    ensures !ShouldRefreshToday(today) && !force ==>
      r == Skipped && script.runs == old(script.runs) &&
      forall c :: c in channels ==> c.sent == old(c.sent)
    ensures ShouldRefreshToday(today) || force ==>
      script.runs == old(script.runs) + [ScriptUrl] &&
      var target := FindChannel(channels, outputChannel);
      match ChunkOutput(script.output)
      case Failure(e) =>
        r == Raised(e) && forall c :: c in channels ==> c.sent == old(c.sent)
      case Success(chunks) =>
        if target == null then
          r == Raised(AttributeError) && forall c :: c in channels ==> c.sent == old(c.sent)
        else
          r == Completed && target.sent == old(target.sent) + PlainMessages(chunks) &&
          forall c :: c in channels && c != target ==> c.sent == old(c.sent)
  {
    if !ShouldRefreshToday(today) && !force {
      return Skipped;
    }
    var channel := FindChannel(channels, outputChannel);
    var output := script.RunScript(ScriptUrl);
    var chunked := ChunkOutput(output);
    if chunked.Failure? {
      return Raised(chunked.error);
    }
    var messages := chunked.value;
    if channel == null {
      return Raised(AttributeError);
    }
    for i := 0 to |messages|
      invariant channel.sent == old(channel.sent) + PlainMessages(messages[..i])
      invariant forall c :: c in channels && c != channel ==> c.sent == old(c.sent)
      invariant script.runs == old(script.runs) + [ScriptUrl]
    {
      assert PlainMessages(messages[..i + 1]) == PlainMessages(messages[..i]) + [Plain(messages[i])];
      channel.Send(Plain(messages[i]));
    }
    assert messages[..|messages|] == messages;
    return Completed;
  }
}
