/**
 * The chat-platform objects the bot reads and writes, as values: roles, channels, guild
 * members, embeds and messages, plus a `Channel` object that records what was sent to it,
 * and the library's first-match lookup `discord.utils.get`.
 */
module Discord {
  import opened Wrappers
  import opened Calendar

  datatype Role = Role(id: nat, name: string)

  /** A resolved text channel, as the client holds it. */
  datatype ChannelRef = ChannelRef(id: nat, name: string)

  /** A guild member; only the id, the name and the join date are used. */
  datatype Member = Member(id: nat, name: string, joinedAt: Date)

  datatype Guild = Guild(id: nat, name: string, members: seq<Member>, roles: seq<Role>,
                         channels: seq<ChannelRef>)

  datatype Field = Field(name: string, value: string, inline: bool)

  /** An embed; its colour is a random preset and is not modelled. */
  datatype Embed = Embed(title: string, description: string, fields: seq<Field>, footer: string)

  /** What `channel.send(content=..., embed=...)` posts. */
  datatype Message = Message(content: Option<string>, embed: Option<Embed>)

  function Plain(text: string): Message {
    Message(Some(text), None)
  }

  function PlainMessages(texts: seq<string>): (r: seq<Message>)
    ensures |r| == |texts|
    ensures forall k :: 0 <= k < |texts| ==> r[k] == Plain(texts[k])
  {
    seq(|texts|, k requires 0 <= k < |texts| => Plain(texts[k]))
  }

  /** An incoming chat message. */
  datatype Inbound = Inbound(author: nat, content: string, channel: ChannelRef)

  /** A channel object: `Send` appends to the record of what it has been sent. */
  class Channel {
    const name: string
    var sent: seq<Message>

    constructor (name: string)
      ensures this.name == name && sent == []
    {
      this.name := name;
      sent := [];
    }

    method Send(m: Message)
      modifies this
      ensures sent == old(sent) + [m]
    {
      sent := sent + [m];
    }
  }

  /**
   * `discord.utils.get(channels, name=n)`: the first channel with that name, or null.
   */
  function FindChannel(channels: seq<Channel>, n: string): (r: Channel?)
    ensures r != null ==> r in channels && r.name == n
    ensures r != null ==> exists k :: 0 <= k < |channels| && channels[k] == r &&
                                      forall j :: 0 <= j < k ==> channels[j].name != n
    ensures r == null <==> forall k :: 0 <= k < |channels| ==> channels[k].name != n
  {
    if channels == [] then null
    else if channels[0].name == n then channels[0]
    else
      var r := FindChannel(channels[1..], n);
      assert r != null ==> exists k :: 1 <= k < |channels| && channels[k] == r &&
                                       forall j :: 1 <= j < k ==> channels[j].name != n;
      r
  }

  /** `discord.utils.get(roles, name=n)`: the first role with that name, or None. */
  function FindRole(roles: seq<Role>, n: string): (r: Option<Role>)
    ensures r.Some? ==> exists k :: 0 <= k < |roles| && roles[k] == r.value && r.value.name == n &&
                                    forall j :: 0 <= j < k ==> roles[j].name != n
    ensures r.None? <==> forall k :: 0 <= k < |roles| ==> roles[k].name != n
  {
    if roles == [] then None
    else if roles[0].name == n then Some(roles[0])
    else
      var r := FindRole(roles[1..], n);
      assert r.Some? ==> exists k :: 1 <= k < |roles| && roles[k] == r.value && r.value.name == n &&
                                     forall j :: 1 <= j < k ==> roles[j].name != n;
      r
  }

  /** `client.get_guild(id)`: the first guild with that id, or None. */
  function GuildById(xs: seq<Guild>, id: nat): Option<Guild>
  {
    if xs == [] then None
    else if xs[0].id == id then Some(xs[0])
    else
      GuildById(xs[1..], id)
  }

  /** The first member with that id, or None. */
  function FirstMemberById(xs: seq<Member>, id: nat): Option<Member>
  {
    if xs == [] then None
    else if xs[0].id == id then Some(xs[0])
    else
      FirstMemberById(xs[1..], id)
  }

  /** The first channel with that id, or None. */
  function FirstChannelById(xs: seq<ChannelRef>, id: nat): Option<ChannelRef>
  {
    if xs == [] then None
    else if xs[0].id == id then Some(xs[0])
    else
      FirstChannelById(xs[1..], id)
  }

  /** The first role with that id, or None. */
  function FirstRoleById(xs: seq<Role>, id: nat): Option<Role>
  {
    if xs == [] then None
    else if xs[0].id == id then Some(xs[0])
    else
      FirstRoleById(xs[1..], id)
  }

  /** `guild.get_member(id)` */
  function MemberById(g: Guild, id: nat): Option<Member> {
    FirstMemberById(g.members, id)
  }

  /** `guild.get_channel(id)` */
  function ChannelById(g: Guild, id: nat): Option<ChannelRef> {
    FirstChannelById(g.channels, id)
  }

  /** `guild.get_role(id)` */
  function RoleById(g: Guild, id: nat): Option<Role> {
    FirstRoleById(g.roles, id)
  }
}
