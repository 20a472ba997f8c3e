/** The chat platform as the paginator sees it: the reaction events its
    subscription delivers, and one sent message whose state changes through
    the calls the paginator makes on it. Every call is also appended to the
    message's log, so the order of the calls can be stated. */
module Discord {
  import opened Wrappers

  type UserId = nat
  type MessageId = nat

  /** A reaction glyph in its string form: a unicode emoji, or `<:name:id>` for a custom emoji. */
  type Glyph = string

  /** What one wait for a `reaction_add` event yields: the wait timed out,
      or a reaction was added by some user to some message. */
  datatype Event =
    | Timeout
    | Reaction(messageId: MessageId, emoji: Glyph, userId: UserId, userIsBot: bool)

  /** One call the paginator makes on the platform. */
  datatype Effect =
    | Sent(description: string, footer: Option<string>)
    | Reacted(emoji: Glyph)
    | Unreacted(emoji: Glyph, userId: UserId)
    | Edited(description: string, footer: Option<string>)
    | Deleted
    | Cleared

  /** The state of the sent message: its embed's description and footer, the
      reactions on it (glyph and reacting user), whether it was deleted, and
      the log of the calls made on it. */
  datatype Message = Message(
    id: MessageId,
    description: string,
    footer: Option<string>,
    reactions: set<(Glyph, UserId)>,
    deleted: bool,
    log: seq<Effect>)

  /** `ctx.send(embed=...)`: a new message showing the embed. */
  function Post(id: MessageId, description: string, footer: Option<string>): Message {
    Message(id, description, footer, {}, false, [Sent(description, footer)])
  }

  /** `message.add_reaction(emoji)`, made by the bot `botId`. */
  function AddReaction(m: Message, botId: UserId, emoji: Glyph): Message {
    m.(reactions := m.reactions + {(emoji, botId)}, log := m.log + [Reacted(emoji)])
  }

  /** `message.remove_reaction(emoji, user)`. */
  function RemoveReaction(m: Message, emoji: Glyph, user: UserId): Message {
    m.(reactions := m.reactions - {(emoji, user)}, log := m.log + [Unreacted(emoji, user)])
  }

  /** `message.edit(embed=...)`: the message now shows the embed's description and footer. */
  function Edit(m: Message, description: string, footer: Option<string>): Message {
    m.(description := description, footer := footer, log := m.log + [Edited(description, footer)])
  }

  /** `message.delete()`. */
  function Delete(m: Message): Message {
    m.(deleted := true, log := m.log + [Deleted])
  }

  /** `message.clear_reactions()`. */
  function ClearReactions(m: Message): Message {
    m.(reactions := {}, log := m.log + [Cleared])
  }

  /** A user adding a reaction to this message puts it on the message; that
      is the user's doing, not a call of the paginator, so nothing is logged. */
  function Deliver(m: Message, ev: Event): Message {
    if ev.Reaction? && ev.messageId == m.id then m.(reactions := m.reactions + {(ev.emoji, ev.userId)})
    else m
  }
}
