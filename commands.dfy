/**
 * commands.py: the `$pw ` command router. The text after the prefix is matched exactly
 * against a fixed table; every message reaches exactly one handler, and anything not in
 * the table is echoed back as unrecognized.
 */
module Commands {
  import opened Wrappers
  import opened Text
  import opened Discord
  import opened Effects

  const Prefix := "$pw "

  const HelloReply := "*The creepy doll slowly gives you a thumbs up.*"
  const HelpReply := "Sorry, \"help\" not implemented yet!"

  /** The handlers of the dispatch table. */
  datatype Command =
    | Hello
    | Help
    | RefreshVistani
    | RefreshTattoo
    | Unknown(text: string)

  /** `message.content.removeprefix(PREFIX)`: the command text. */
  function CommandText(content: string): (r: string)
    ensures StartsWith(content, Prefix) ==> Prefix + r == content
    ensures !StartsWith(content, Prefix) ==> r == content
  {
    RemovePrefix(content, Prefix)
  }

  /** The `match` of `handle`: exact string equality against the literal cases. */
  function Route(text: string): (c: Command)
    ensures c == Hello <==> text == "hello"
    ensures c == Help <==> text == "help" || text == "-help" || text == "--help"
    ensures c == RefreshVistani <==> text == "refresh vistani"
    ensures c == RefreshTattoo <==> text == "refresh tattoo"
    ensures c.Unknown? <==>
      text !in {"hello", "help", "-help", "--help", "refresh vistani", "refresh tattoo"}
    ensures c.Unknown? ==> c.text == text
  {
    match text
    case "hello" => Hello
    case "help" => Help
    case "-help" => Help
    case "--help" => Help
    case "refresh vistani" => RefreshVistani
    case "refresh tattoo" => RefreshTattoo
    case _ => Unknown(text)
  }

  /** `_handle_unknown_command`: the command text quoted back. */
  function UnknownReply(command: string): (r: string)
    ensures |r| == |command| + 24
    ensures r[..23] == "Unrecognized command: \"" && r[|r| - 1] == '"'
    ensures r[23..|r| - 1] == command
  {
    "Unrecognized command: \"" + command + "\""
  }

  /**
   * `handle(message)`: logs the message, then runs the one handler its command text
   * selects. A refresh handler generates its feature's inventory (`generated` stands for
   * the generator's output) and posts it to the channel the command came from, with the
   * '@Players' announcement muted.
   */
  function Handle(message: Inbound, generated: string): (r: seq<Effect>)
    ensures |r| >= 2 && r[0] == Log(Debug)
    ensures match Route(CommandText(message.content))
      case Hello => r == [Log(Debug), Send(message.channel, Plain(HelloReply))]
      case Help => r == [Log(Debug), Send(message.channel, Plain(HelpReply))]
      case RefreshVistani =>
        r == [Log(Debug), GenerateInventory(VistaniMarket),
              PostInventory(VistaniMarket, generated, Some(message.channel), MuteAnnouncement)]
      case RefreshTattoo =>
        r == [Log(Debug), GenerateInventory(TattooParlor),
              PostInventory(TattooParlor, generated, Some(message.channel), MuteAnnouncement)]
      case Unknown(text) =>
        r == [Log(Debug), Send(message.channel, Plain(UnknownReply(CommandText(message.content))))]
  {
    [Log(Debug)] + Dispatch(Route(CommandText(message.content)), message, generated)
  }

  /** What one handler does. */
  function Dispatch(command: Command, message: Inbound, generated: string): seq<Effect> {
    match command
    case Hello => [Send(message.channel, Plain(HelloReply))]
    case Help => [Send(message.channel, Plain(HelpReply))]
    case RefreshVistani => RefreshHandler(VistaniMarket, message, generated)
    case RefreshTattoo => RefreshHandler(TattooParlor, message, generated)
    case Unknown(_) => [Send(message.channel, Plain(UnknownReply(CommandText(message.content))))]
  }

  /** `_handle_refresh_vistani` / `_handle_refresh_tattoo`. */
  function RefreshHandler(feature: Feature, message: Inbound, generated: string): seq<Effect> {
    [GenerateInventory(feature), PostInventory(feature, generated, Some(message.channel), MuteAnnouncement)]
  }

  /** The prefix is taken off once: a doubled prefix leaves the second one in the command. */
  lemma PrefixRemovedOnce(rest: string)
    ensures CommandText(Prefix + rest) == rest
    ensures CommandText(Prefix + Prefix + rest) == Prefix + rest
  {
    assert StartsWith(Prefix + rest, Prefix);
    assert StartsWith(Prefix + Prefix + rest, Prefix);
  }

  /** A command without the prefix is matched as it stands. */
  lemma UnprefixedUnchanged(content: string)
    requires !StartsWith(content, Prefix)
    ensures CommandText(content) == content
  {
  }

  /** Matching is exact: another case, or trailing whitespace, goes to the fallback. */
  lemma MatchIsExact()
    ensures Route("Hello").Unknown? && Route("HELP").Unknown?
    ensures Route("hello ").Unknown? && Route("help\n").Unknown?
    ensures Route("Refresh Vistani").Unknown? && Route("refresh tattoo ").Unknown?
    ensures Route("refresh").Unknown? && Route("").Unknown?
  {
  }

  /**
   * Each message triggers exactly one handler: one reply, or one generate-and-post pair,
   * and never both a reply and a post.
   */
  lemma ExactlyOneHandler(message: Inbound, generated: string)
    ensures var r := Handle(message, generated);
      (|r| == 2 && r[1].Send? && r[1].channel == message.channel) ||
      (|r| == 3 && r[1].GenerateInventory? && r[2].PostInventory? &&
       r[1].feature == r[2].feature && r[2].mode == MuteAnnouncement &&
       r[2].destination == Some(message.channel))
  {
  }

  /** Both refresh commands post to the command's own channel with the ping muted. */
  lemma RefreshCommandsAreMuted(message: Inbound, generated: string, k: nat)
    requires k < |Handle(message, generated)| && Handle(message, generated)[k].PostInventory?
    ensures Handle(message, generated)[k].mode == MuteAnnouncement
    ensures Handle(message, generated)[k].destination == Some(message.channel)
    ensures CommandText(message.content) in {"refresh vistani", "refresh tattoo"}
  {
  }
}
