/**
 * The observable steps of the command handlers and the scheduled tasks. Calls into code
 * that is not part of this model (inventory generation and posting, the cakeday
 * announcement, role grant and staff notice, loading the almanac sheet) are recorded as
 * entries of a trace, in the order they are made; an exception that ends a run is its
 * last entry.
 */
module Effects {
  import opened Wrappers
  import opened Discord
  import Cakeday

  /** The two inventories generated by external scripts. */
  datatype Feature = VistaniMarket | TattooParlor

  /** How an inventory is posted: pinging a role, or with the '@Players' ping muted. */
  datatype PostMode = MentionRole(role: Option<Role>) | MuteAnnouncement

  datatype Level = Debug | Info | Error

  /** The exceptions a run can end with. */
  datatype Fault =
    | AttributeError   // an attribute read on None (an unresolved channel, role, guild or id)
    | TypeError        // subscripting None
    | KeyError(key: string)
    | ValueError(missing: string)   // `str.index` found no such substring

  /** How a module-level refresh ended: skipped, finished, or with an exception. */
  datatype Outcome = Skipped | Completed | Raised(fault: Fault)

  datatype Effect =
    | Log(level: Level)
    | Send(channel: ChannelRef, message: Message)
    | LoadSheet(sheetId: string)
    | GenerateInventory(feature: Feature)
    | PostInventory(feature: Feature, output: string, destination: Option<ChannelRef>, mode: PostMode)
    | MakeAnnouncement(roster: seq<Cakeday.Anniversary>, destination: Option<ChannelRef>)
    | AddRole(roster: seq<Cakeday.Anniversary>, role: Option<Role>)
    | NotifyStaff(roster: seq<Cakeday.Anniversary>, destination: Option<ChannelRef>, mods: Option<Role>,
                  jumpUrl: string, addRoleSuccess: bool)
    | Raise(fault: Fault)

  /** An effect outside the bot: a post, a generation, a sheet read, a role grant. */
  predicate IsWork(e: Effect) {
    !e.Log? && !e.Raise?
  }

  /** The run did something other than write log lines or fail. */
  predicate DidWork(trace: seq<Effect>) {
    exists e :: e in trace && IsWork(e)
  }
}
