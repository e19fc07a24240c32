/**
 * client.py: the bot's connection object. `on_ready` looks up the server's entities once;
 * `on_message` routes commands; each scheduled task checks its day before doing any work.
 * A task run is modelled as the trace of effects it causes (see module Effects), over the
 * client's state, today's date and the outputs of the services it calls.
 */
module Client {
  import opened Wrappers
  import opened Text
  import opened Calendar
  import opened Discord
  import opened Effects
  import Cakeday
  import Commands
  import VistaniMarket
  import TattooParlor
  import Almanac
  import StaffXpReminder

  /** The ids and sheet id `on_ready` reads from the environment. */
  datatype Environment = Environment(
    server: nat, maintainer: nat,
    vistaniInventoryChannel: nat, tattooInventoryChannel: nat, cakedayAnnouncementChannel: nat,
    almanacChannel: nat, botNotificationChannel: nat, botDevelopmentChannel: nat,
    staffxpReminderChannel: nat,
    playersRole: nat, staffRole: nat, modsRole: nat, yearOnePlayerRole: nat, helperRole: nat,
    almanacGsheetId: string)

  /** How `cakeday.add_role` ended: it returned its success flag, or raised a caught error. */
  datatype AddRoleOutcome = Returned(success: bool) | CaughtFailure

  /** The flag passed to `notify_staff`: False whenever the role grant raised. */
  function AddRoleSuccess(outcome: AddRoleOutcome): (b: bool)
    ensures b <==> outcome == Returned(true)
  {
    match outcome
    case Returned(success) => success
    case CaughtFailure => false
  }

  /**
   * The helper role: the role with the configured id when there is one, otherwise the
   * first role named `Helper`.
   */
  function HelperRole(byId: Option<Role>, roles: seq<Role>): (r: Option<Role>)
    ensures byId.Some? ==> r == byId
    ensures byId.None? && r.Some? ==>
              exists k :: 0 <= k < |roles| && roles[k] == r.value && r.value.name == "Helper" &&
                          forall j :: 0 <= j < k ==> roles[j].name != "Helper"
    ensures r.None? <==> byId.None? && forall k :: 0 <= k < |roles| ==> roles[k].name != "Helper"
  {
    if byId.Some? then byId else FindRole(roles, "Helper")
  }

  class Client {
    /** The bot's own user id. */
    const user: nat
    /**
     * The day the modules were imported: the value the `today` and `timestamp` defaults of
     * `get_members` and `generate_embed` were fixed to.
     */
    const startedOn: Date

    var guild: Option<Guild>
    var maintainer: Option<Member>
    var vistaniInventoryChannel: Option<ChannelRef>
    var tattooInventoryChannel: Option<ChannelRef>
    var cakedayAnnouncementChannel: Option<ChannelRef>
    var almanacChannel: Option<ChannelRef>
    var botNotificationChannel: Option<ChannelRef>
    var botDevelopmentChannel: Option<ChannelRef>
    var staffxpReminderChannel: Option<ChannelRef>
    var playersRole: Option<Role>
    var staffRole: Option<Role>
    var modsRole: Option<Role>
    var yearOnePlayerRole: Option<Role>
    var helperRole: Option<Role>
    var almanacGsheetId: Option<string>

    constructor (user: nat, startedOn: Date)
      ensures this.user == user && this.startedOn == startedOn
      ensures guild == None && maintainer == None
      ensures vistaniInventoryChannel == None && tattooInventoryChannel == None &&
              cakedayAnnouncementChannel == None && almanacChannel == None &&
              botNotificationChannel == None && botDevelopmentChannel == None &&
              staffxpReminderChannel == None
      ensures playersRole == None && staffRole == None && modsRole == None &&
              yearOnePlayerRole == None && helperRole == None
      ensures almanacGsheetId == None
    {
      this.user := user;
      this.startedOn := startedOn;
      guild, maintainer := None, None;
      vistaniInventoryChannel, tattooInventoryChannel, cakedayAnnouncementChannel := None, None, None;
      almanacChannel, botNotificationChannel, botDevelopmentChannel := None, None, None;
      staffxpReminderChannel := None;
      playersRole, staffRole, modsRole, yearOnePlayerRole, helperRole := None, None, None, None, None;
      almanacGsheetId := None;
    }

    /**
     * `on_ready`: looks each entity up by its configured id in the server the bot sits in.
     * An unknown server fails at the first lookup through it; an unknown helper role falls
     * back to the role named `Helper`, and reading that fallback's id fails when there is
     * none.
     */
    method OnReady(env: Environment, guilds: seq<Guild>) returns (r: Outcome)
      modifies this
      ensures guild == GuildById(guilds, env.server)
      ensures guild.None? ==>
        r == Raised(AttributeError) &&
        unchanged(this`maintainer, this`vistaniInventoryChannel, this`tattooInventoryChannel,
                  this`cakedayAnnouncementChannel, this`almanacChannel, this`botNotificationChannel,
                  this`botDevelopmentChannel, this`staffxpReminderChannel) &&
        unchanged(this`playersRole, this`staffRole, this`modsRole, this`yearOnePlayerRole,
                  this`helperRole, this`almanacGsheetId)
      ensures guild.Some? ==>
        maintainer == MemberById(guild.value, env.maintainer) &&
        vistaniInventoryChannel == ChannelById(guild.value, env.vistaniInventoryChannel) &&
        tattooInventoryChannel == ChannelById(guild.value, env.tattooInventoryChannel) &&
        cakedayAnnouncementChannel == ChannelById(guild.value, env.cakedayAnnouncementChannel) &&
        almanacChannel == ChannelById(guild.value, env.almanacChannel) &&
        botNotificationChannel == ChannelById(guild.value, env.botNotificationChannel) &&
        botDevelopmentChannel == ChannelById(guild.value, env.botDevelopmentChannel) &&
        staffxpReminderChannel == ChannelById(guild.value, env.staffxpReminderChannel) &&
        playersRole == RoleById(guild.value, env.playersRole) &&
        staffRole == RoleById(guild.value, env.staffRole) &&
        modsRole == RoleById(guild.value, env.modsRole) &&
        yearOnePlayerRole == RoleById(guild.value, env.yearOnePlayerRole) &&
        helperRole == HelperRole(RoleById(guild.value, env.helperRole), guild.value.roles) &&
        (r == Completed <==> helperRole.Some?) &&
        (r != Completed ==> r == Raised(AttributeError) && almanacGsheetId == old(almanacGsheetId)) &&
        (r == Completed ==> almanacGsheetId == Some(env.almanacGsheetId))
    {
      guild := GuildById(guilds, env.server);
      if guild.None? {
        return Raised(AttributeError);
      }
      var g := guild.value;
      maintainer := MemberById(g, env.maintainer);
      LookUpChannels(g, env);
      r := LookUpRoles(g, env);
      if r == Completed {
        almanacGsheetId := Some(env.almanacGsheetId);
      }
    }

    /** The channel lookups of `on_ready`. */
    method LookUpChannels(g: Guild, env: Environment)
      modifies this`vistaniInventoryChannel, this`tattooInventoryChannel,
               this`cakedayAnnouncementChannel, this`almanacChannel, this`botNotificationChannel,
               this`botDevelopmentChannel, this`staffxpReminderChannel
      ensures vistaniInventoryChannel == ChannelById(g, env.vistaniInventoryChannel)
      ensures tattooInventoryChannel == ChannelById(g, env.tattooInventoryChannel)
      ensures cakedayAnnouncementChannel == ChannelById(g, env.cakedayAnnouncementChannel)
      ensures almanacChannel == ChannelById(g, env.almanacChannel)
      ensures botNotificationChannel == ChannelById(g, env.botNotificationChannel)
      ensures botDevelopmentChannel == ChannelById(g, env.botDevelopmentChannel)
      ensures staffxpReminderChannel == ChannelById(g, env.staffxpReminderChannel)
    {
      vistaniInventoryChannel := ChannelById(g, env.vistaniInventoryChannel);
      tattooInventoryChannel := ChannelById(g, env.tattooInventoryChannel);
      cakedayAnnouncementChannel := ChannelById(g, env.cakedayAnnouncementChannel);
      almanacChannel := ChannelById(g, env.almanacChannel);
      botNotificationChannel := ChannelById(g, env.botNotificationChannel);
      botDevelopmentChannel := ChannelById(g, env.botDevelopmentChannel);
      staffxpReminderChannel := ChannelById(g, env.staffxpReminderChannel);
    }

    /**
     * The role lookups of `on_ready`, with the helper fallback; reading the id of a
     * fallback that found nothing raises.
     */
    method LookUpRoles(g: Guild, env: Environment) returns (r: Outcome)
      modifies this`playersRole, this`staffRole, this`modsRole, this`yearOnePlayerRole, this`helperRole
      ensures playersRole == RoleById(g, env.playersRole)
      ensures staffRole == RoleById(g, env.staffRole)
      ensures modsRole == RoleById(g, env.modsRole)
      ensures yearOnePlayerRole == RoleById(g, env.yearOnePlayerRole)
      ensures helperRole == HelperRole(RoleById(g, env.helperRole), g.roles)
      ensures r == (if helperRole.Some? then Completed else Raised(AttributeError))
    {
      playersRole := RoleById(g, env.playersRole);
      staffRole := RoleById(g, env.staffRole);
      modsRole := RoleById(g, env.modsRole);
      yearOnePlayerRole := RoleById(g, env.yearOnePlayerRole);
      helperRole := RoleById(g, env.helperRole);
      if helperRole.None? {
        helperRole := FindRole(g.roles, "Helper");
        if helperRole.None? {
          return Raised(AttributeError);
        }
      }
      return Completed;
    }

    /**
     * `on_message`: the bot ignores its own messages and anything not starting with the
     * command prefix; everything else goes to the command router (`generated` stands for
     * the output of an inventory generator a refresh command runs).
     */
    function OnMessage(message: Inbound, generated: string): (r: seq<Effect>)
      ensures message.author == user ==> r == []
      ensures !StartsWith(message.content, Commands.Prefix) ==> r == []
      ensures message.author != user && StartsWith(message.content, Commands.Prefix) ==>
        r == Commands.Handle(message, generated)
    {
      if message.author == user then []
      else if StartsWith(message.content, Commands.Prefix) then Commands.Handle(message, generated)
      else []
    }

    /** The scheduled branch of an inventory task: log the channel's name, generate, post. */
    function PostTask(feature: Feature, channel: Option<ChannelRef>, generated: string): seq<Effect>
      reads this
    {
      if channel.None? then [Raise(AttributeError)]
      else [Log(Info), GenerateInventory(feature),
            PostInventory(feature, generated, channel, MentionRole(playersRole))]
    }

    /**
     * `refresh_vistani_market`; both branches read the channel's name in their log line,
     * so an unresolved channel fails on any day.
     */
    function RefreshVistaniMarket(today: Date, generated: string): (r: seq<Effect>)
      reads this
      ensures |r| >= 2 && r[0] == Log(Debug)
    {
      [Log(Debug)] +
      if VistaniMarket.ShouldRefreshToday(today) then
        PostTask(VistaniMarket, vistaniInventoryChannel, generated)
      else if vistaniInventoryChannel.None? then [Raise(AttributeError)]
      else [Log(Info)]
    }

    /** `refresh_tattoo_parlor`; only the scheduled branch reads the channel's name. */
    function RefreshTattooParlor(today: Date, generated: string): (r: seq<Effect>)
      reads this
      ensures |r| >= 2 && r[0] == Log(Debug)
    {
      [Log(Debug)] +
      if TattooParlor.ShouldRefreshToday(today) then
        PostTask(TattooParlor, tattooInventoryChannel, generated)
      else [Log(Info)]
    }

    /** The try/except/finally of the cakeday task: the role attempt, then the staff notice. */
    function RoleThenNotify(roster: seq<Cakeday.Anniversary>, addRole: AddRoleOutcome, jumpUrl: string): seq<Effect>
      reads this
    {
      (match addRole
       case Returned(_) => [AddRole(roster, yearOnePlayerRole)]
       case CaughtFailure => [AddRole(roster, yearOnePlayerRole), Log(Error)]) +
      [NotifyStaff(roster, botNotificationChannel, modsRole, jumpUrl, AddRoleSuccess(addRole))]
    }

    /**
     * `announce_cakedays` for the date `day`: with a non-empty roster, announce, attempt the
     * role grant, and notify staff whatever the attempt did. `addRole` is how the grant
     * ended and `jumpUrl` the link of the announcement `make_announcement` returned.
     */
    function AnnounceCakedays(day: Date, addRole: AddRoleOutcome, jumpUrl: string): (r: seq<Effect>)
      reads this
      ensures |r| >= 2 && r[0] == Log(Debug)
    {
      if guild.None? then [Log(Debug), Raise(AttributeError)]
      else
        var roster := Cakeday.Roster(guild.value.members, day);
        if roster != [] then
          [Log(Debug), Log(Info), MakeAnnouncement(roster, cakedayAnnouncementChannel)] +
          RoleThenNotify(roster, addRole, jumpUrl)
        else [Log(Debug), Log(Info)]
    }

    /**
     * As written: `get_members(self.guild)` takes the date fixed when the
     * module was imported, not the day the job fires.
     */
    function AnnounceCakedaysAsWritten(today: Date, addRole: AddRoleOutcome, jumpUrl: string): (r: seq<Effect>)
      reads this
      ensures |r| >= 2 && r[0] == Log(Debug)
    {
      AnnounceCakedays(startedOn, addRole, jumpUrl)
    }

    /** What `_fetch_data` logs once the sheet is read. */
    function FetchLog(found: Result<Option<Almanac.Row>, Fault>): seq<Effect> {
      match found
      case Failure(_) => []
      case Success(Some(_)) => [Log(Info)]
      case Success(None) => [Log(Error)]
    }

    /**
     * `refresh_almanac` for the timestamp `at`, given the rows the sheet holds: load the
     * sheet, build the embed and post it.
     */
    function RefreshAlmanac(at: Date, rows: seq<Almanac.Row>): (r: seq<Effect>)
      reads this
      ensures |r| >= 2 && r[0] == Log(Debug)
    {
      [Log(Debug)] +
      if almanacGsheetId.None? then [Raise(AttributeError)]
      else
        [LoadSheet(almanacGsheetId.value), Log(Info)] +
        FetchLog(Almanac.FindEntry(rows, Almanac.DateKey(at))) +
        DeliverEntry(Almanac.GenerateEmbed(rows, at))
    }

    /** `post_entry(entry, self.almanac_channel)` once `generate_embed` has returned or raised. */
    function DeliverEntry(built: Result<Embed, Fault>): seq<Effect>
      reads this
    {
      match built
      case Failure(e) => [Raise(e)]
      case Success(embed) =>
        if almanacChannel.None? then [Raise(AttributeError)]
        else [Almanac.PostEntry(embed, almanacChannel.value)]
    }

    /** As written: `generate_embed(sheet_id)` takes the import-time timestamp. */
    function RefreshAlmanacAsWritten(today: Date, rows: seq<Almanac.Row>): (r: seq<Effect>)
      reads this
      ensures |r| >= 2 && r[0] == Log(Debug)
    {
      RefreshAlmanac(startedOn, rows)
    }

    /** `remind_staffxp` with the reminder awaited, so that it is sent. */
    function RemindStaffXp(today: Date): (r: seq<Effect>)
      reads this
      ensures |r| >= 2 && r[0] == Log(Debug)
    {
      [Log(Debug)] +
      if StaffXpReminder.ShouldRemindToday(today) then
        if staffxpReminderChannel.None? then [Raise(AttributeError)]
        else [Log(Info), Send(staffxpReminderChannel.value, StaffXpReminder.Reminder(helperRole))]
      else [Log(Info)]
    }

    /**
     * As written: `send_reminder(...)` is called without `await`, which only
     * creates the coroutine, so the reminder is never sent.
     */
    function RemindStaffXpAsWritten(today: Date): (r: seq<Effect>)
      reads this
      ensures |r| >= 2 && r[0] == Log(Debug)
    {
      [Log(Debug)] +
      if StaffXpReminder.ShouldRemindToday(today) then
        if staffxpReminderChannel.None? then [Raise(AttributeError)]
        else [Log(Info)]
      else [Log(Info)]
    }
  }

  // ----- Message routing

  /** Only a message from someone else that starts with the prefix is dispatched. */
  lemma DispatchIff(c: Client, message: Inbound, generated: string)
    ensures c.OnMessage(message, generated) != [] <==>
      message.author != c.user && StartsWith(message.content, Commands.Prefix)
  {
    if message.author != c.user && StartsWith(message.content, Commands.Prefix) {
      assert |Commands.Handle(message, generated)| >= 2;
    }
  }

  // ----- Scheduled tasks

  /**
   * On a day that is not scheduled, the inventory tasks and the reminder do nothing but log
   * (the Vistani task also fails on an unresolved channel, whose name its log line reads).
   */
  lemma OffDaysOnlyLog(c: Client, today: Date, generated: string)
    ensures !VistaniMarket.ShouldRefreshToday(today) ==>
      c.RefreshVistaniMarket(today, generated) ==
        (if c.vistaniInventoryChannel.None? then [Log(Debug), Raise(AttributeError)]
         else [Log(Debug), Log(Info)])
    ensures !TattooParlor.ShouldRefreshToday(today) ==>
      c.RefreshTattooParlor(today, generated) == [Log(Debug), Log(Info)]
    ensures !StaffXpReminder.ShouldRemindToday(today) ==>
      c.RemindStaffXp(today) == [Log(Debug), Log(Info)]
  {
  }

  /** The tasks with a day check do work exactly on their days, once their channel is resolved. */
  lemma WorkOnlyOnScheduledDays(c: Client, today: Date, generated: string)
    ensures DidWork(c.RefreshVistaniMarket(today, generated)) <==>
      VistaniMarket.ShouldRefreshToday(today) && c.vistaniInventoryChannel.Some?
    ensures DidWork(c.RefreshTattooParlor(today, generated)) <==>
      TattooParlor.ShouldRefreshToday(today) && c.tattooInventoryChannel.Some?
    ensures DidWork(c.RemindStaffXp(today)) <==>
      StaffXpReminder.ShouldRemindToday(today) && c.staffxpReminderChannel.Some?
  {
    var v, t, x := c.RefreshVistaniMarket(today, generated), c.RefreshTattooParlor(today, generated),
                   c.RemindStaffXp(today);
    if VistaniMarket.ShouldRefreshToday(today) && c.vistaniInventoryChannel.Some? {
      assert IsWork(v[2]) && v[2] in v;
    } else {
      assert forall e :: e in v ==> !IsWork(e);
    }
    if TattooParlor.ShouldRefreshToday(today) && c.tattooInventoryChannel.Some? {
      assert IsWork(t[2]) && t[2] in t;
    } else {
      assert forall e :: e in t ==> !IsWork(e);
    }
    if StaffXpReminder.ShouldRemindToday(today) && c.staffxpReminderChannel.Some? {
      assert IsWork(x[2]) && x[2] in x;
    } else {
      assert forall e :: e in x ==> !IsWork(e);
    }
  }

  /**
   * On a scheduled day with its channel resolved, an inventory task generates the
   * inventory and then posts it there, pinging the Players role.
   */
  lemma ScheduledDaysPost(c: Client, today: Date, generated: string)
    ensures VistaniMarket.ShouldRefreshToday(today) && c.vistaniInventoryChannel.Some? ==>
      var r := c.RefreshVistaniMarket(today, generated);
      |r| == 4 && r[2] == GenerateInventory(VistaniMarket) &&
      r[3] == PostInventory(VistaniMarket, generated, c.vistaniInventoryChannel, MentionRole(c.playersRole))
    ensures TattooParlor.ShouldRefreshToday(today) && c.tattooInventoryChannel.Some? ==>
      var r := c.RefreshTattooParlor(today, generated);
      |r| == 4 && r[2] == GenerateInventory(TattooParlor) &&
      r[3] == PostInventory(TattooParlor, generated, c.tattooInventoryChannel, MentionRole(c.playersRole))
  {
  }

  /** The cakeday task announces exactly when the roster for the day is non-empty. */
  lemma AnnouncesIffRoster(c: Client, day: Date, addRole: AddRoleOutcome, jumpUrl: string)
    requires c.guild.Some?
    ensures DidWork(c.AnnounceCakedays(day, addRole, jumpUrl)) <==>
      exists m :: m in c.guild.value.members && Cakeday.HasCakeday(m, day)
    ensures (exists k :: 0 <= k < |c.AnnounceCakedays(day, addRole, jumpUrl)| &&
                         c.AnnounceCakedays(day, addRole, jumpUrl)[k].MakeAnnouncement?) <==>
      Cakeday.Roster(c.guild.value.members, day) != []
  {
    Cakeday.RosterEmpty(c.guild.value.members, day);
    var r := c.AnnounceCakedays(day, addRole, jumpUrl);
    if Cakeday.Roster(c.guild.value.members, day) != [] {
      assert IsWork(r[2]) && r[2].MakeAnnouncement?;
    } else {
      assert r == [Log(Debug), Log(Info)];
    }
  }

  /**
   * When there is a roster, the announcement comes first, then the role attempt, and staff
   * are notified last whether or not the attempt raised; the flag they get is False
   * whenever it raised.
   */
  lemma NotifyAfterRoleAttempt(c: Client, day: Date, addRole: AddRoleOutcome, jumpUrl: string)
    requires c.guild.Some? && Cakeday.Roster(c.guild.value.members, day) != []
    ensures var r := c.AnnounceCakedays(day, addRole, jumpUrl);
      var roster := Cakeday.Roster(c.guild.value.members, day);
      r[2] == MakeAnnouncement(roster, c.cakedayAnnouncementChannel) &&
      r[3] == AddRole(roster, c.yearOnePlayerRole) &&
      r[|r| - 1] == NotifyStaff(roster, c.botNotificationChannel, c.modsRole, jumpUrl,
                                AddRoleSuccess(addRole)) &&
      (addRole == CaughtFailure ==> |r| == 6 && r[4] == Log(Error) && !r[|r| - 1].addRoleSuccess) &&
      (addRole.Returned? ==> |r| == 5 && r[|r| - 1].addRoleSuccess == addRole.success)
  {
  }

  /**
   * The almanac task has no day check: on every date, once the sheet id and channel are
   * resolved and the embed can be built, it posts that embed to the almanac channel.
   */
  lemma AlmanacPostsEveryDay(c: Client, at: Date, rows: seq<Almanac.Row>)
    requires c.almanacGsheetId.Some? && c.almanacChannel.Some?
    requires Almanac.GenerateEmbed(rows, at).Success?
    ensures var r := c.RefreshAlmanac(at, rows);
      r[1] == LoadSheet(c.almanacGsheetId.value) &&
      r[|r| - 1] == Send(c.almanacChannel.value, Message(None, Some(Almanac.GenerateEmbed(rows, at).value)))
  {
  }

  /** A failed lookup or embed is the last entry of the run, and nothing is posted. */
  lemma AlmanacFailureStops(c: Client, at: Date, rows: seq<Almanac.Row>)
    requires c.almanacGsheetId.Some? && Almanac.GenerateEmbed(rows, at).Failure?
    ensures var r := c.RefreshAlmanac(at, rows);
      r[|r| - 1] == Raise(Almanac.GenerateEmbed(rows, at).error) && forall e :: e in r ==> !e.Send?
  {
    var built := Almanac.GenerateEmbed(rows, at);
    var logged := c.FetchLog(Almanac.FindEntry(rows, Almanac.DateKey(at)));
    RaiseEndsTrace(c, c.almanacGsheetId.value, logged, built);
  }

  lemma RaiseEndsTrace(c: Client, sheetId: string, logged: seq<Effect>, built: Result<Embed, Fault>)
    requires logged == [] || logged == [Log(Info)] || logged == [Log(Error)]
    requires built.Failure?
    ensures var r := [Log(Debug), LoadSheet(sheetId), Log(Info)] + logged + c.DeliverEntry(built);
      r[|r| - 1] == Raise(built.error) && forall e :: e in r ==> !e.Send?
  {
  }

  /** The reminder task posts the Staff XP reminder, pinging the helper role it resolved. */
  lemma ReminderSent(c: Client, today: Date)
    requires StaffXpReminder.ShouldRemindToday(today) && c.staffxpReminderChannel.Some?
    ensures c.RemindStaffXp(today) ==
      [Log(Debug), Log(Info), Send(c.staffxpReminderChannel.value, StaffXpReminder.Reminder(c.helperRole))]
  {
  }

  // ----- As written

  /** Without `await` the reminder is never sent, on any day. */
  lemma UnawaitedReminderNeverSent(c: Client, today: Date)
    requires StaffXpReminder.ShouldRemindToday(today) && c.staffxpReminderChannel.Some?
    ensures !DidWork(c.RemindStaffXpAsWritten(today))
    ensures DidWork(c.RemindStaffXp(today))
  {
    assert IsWork(c.RemindStaffXp(today)[2]);
  }

  /**
   * With the import-time date, a member whose anniversary is today goes unannounced once
   * the bot has run past its start day: started 2023-01-01, a member who joined on
   * 2022-01-02 is announced on 2023-01-02 only by the corrected task.
   */
  lemma StaleCakedayDate(c: Client, m: Member, today: Date, addRole: AddRoleOutcome, jumpUrl: string)
    requires c.startedOn == CivilDate(2023, 1, 1) && today == CivilDate(2023, 1, 2)
    requires m.joinedAt == CivilDate(2022, 1, 2) && c.guild.Some? && c.guild.value.members == [m]
    ensures !DidWork(c.AnnounceCakedaysAsWritten(today, addRole, jumpUrl))
    ensures DidWork(c.AnnounceCakedays(today, addRole, jumpUrl))
  {
    AnnouncesIffRoster(c, c.startedOn, addRole, jumpUrl);
    AnnouncesIffRoster(c, today, addRole, jumpUrl);
    assert Cakeday.HasCakeday(m, today);
  }

  /**
   * With the import-time timestamp, the almanac keeps looking up its start day: when the
   * sheet holds only today's row, the corrected task posts it and the code as written
   * fails.
   */
  lemma StaleAlmanacDate(c: Client, today: Date, row: Almanac.Row)
    requires c.almanacGsheetId.Some? && c.almanacChannel.Some?
    requires c.startedOn.month != today.month || c.startedOn.day != today.day
    requires Almanac.DateColumn in row && row[Almanac.DateColumn] == Almanac.DateKey(today)
    requires Almanac.HasCells(row)
    ensures var r := c.RefreshAlmanacAsWritten(today, [row]);
      r[|r| - 1] == Raise(TypeError)
    ensures var r := c.RefreshAlmanac(today, [row]);
      r[|r| - 1].Send?
  {
    Almanac.DateKeyInjective(c.startedOn, today);
    assert Almanac.FindEntry([row], Almanac.DateKey(today)) == Success(Some(row));
    Almanac.HasCellsIffNoneMissing(row);
    assert Almanac.Earlier([row], Almanac.DateKey(c.startedOn), 1);
  }
}
