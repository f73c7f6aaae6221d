/** The chat-platform values the core reads and the side effects it asks the platform for. */
module Platform {
  import opened Js

  datatype Author = Author(id: string, username: string, isBot: bool, isClientUser: bool)

  datatype Guild = Guild(id: string, name: string)

  /** An inbound message; `guild` is `None` for a direct message. */
  datatype Message = Message(author: Author, guild: Option<Guild>, content: string)

  /** The options object of `channel.send`: the default, or an `allowedMentions.parse` list. */
  datatype SendOptions = DefaultOptions | AllowedMentions(parse: seq<string>)

  /** `noMentionOpts` of src/utils.js: parse no mention kind, so no one is pinged. */
  const NoMentionOpts: SendOptions := AllowedMentions([])

  /**
   * What a handler asks of the outside world, in the order it asks:
   * a message to the channel, a reply to the author, persisting a default guild
   * configuration, and running a command handler with its arguments.
   */
  datatype Effect =
    | Send(text: string, options: SendOptions)
    | Reply(text: string)
    | AddServer(guildId: string, guildName: string)
    | Execute(command: string, args: seq<string>)
}
