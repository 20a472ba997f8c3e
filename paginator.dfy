/** The reaction-driven page navigator: a permission gate at construction,
    a table of five action glyphs that the caller may override, the filter
    that decides which reaction events count, and the navigation loop run
    by `send` over the events it waits for.

    The loop is specified by the functions `Step`, `Loop` and `Run` over
    values; the class `Paginator` holds the object's fields and its `Send`
    method is proved to behave as `Run` says. */
module Paginator {
  import opened Wrappers
  import opened Discord
  import Decimal

  // ---------------------------------------------------------------------
  // Construction gate
  // ---------------------------------------------------------------------

  /** The four channel permissions the bot must hold to paginate. */
  datatype Permissions = Permissions(
    sendMessages: bool,
    embedLinks: bool,
    addReactions: bool,
    readMessageHistory: bool)

  datatype Permission = SendMessages | EmbedLinks | AddReactions | ReadMessageHistory

  /** The order in which the constructor examines the permissions. */
  const MandatoryPermissions: seq<Permission> :=
    [SendMessages, EmbedLinks, AddReactions, ReadMessageHistory]

  function Has(p: Permissions, q: Permission): bool {
    match q
    case SendMessages => p.sendMessages
    case EmbedLinks => p.embedLinks
    case AddReactions => p.addReactions
    case ReadMessageHistory => p.readMessageHistory
  }

  predicate Granted(p: Permissions) {
    p.sendMessages && p.embedLinks && p.addReactions && p.readMessageHistory
  }

  /** Why construction fails. `CannotPaginate` names the first missing
      permission; `AttributeError` is what the constructor actually raises
      (see `GateAsWritten`). */
  datatype InitError = CannotPaginate(missing: Permission) | AttributeError(name: string)

  /** The permission loop of the constructor: the first permission, in the
      constructor's order, that the bot lacks, or None when all are granted. */
  method FirstMissing(p: Permissions) returns (missing: Option<Permission>)
    ensures missing.None? <==> Granted(p)
    ensures missing.Some? ==> !Has(p, missing.value)
    ensures missing == FirstLacking(p)
    ensures missing.Some? ==>
      forall i | 0 <= i < |MandatoryPermissions| && MandatoryPermissions[i] == missing.value ::
        forall j | 0 <= j < i :: Has(p, MandatoryPermissions[j])
  {
    var i := 0;
    while i < |MandatoryPermissions|
      invariant 0 <= i <= |MandatoryPermissions|
      invariant forall j | 0 <= j < i :: Has(p, MandatoryPermissions[j])
    {
      if !Has(p, MandatoryPermissions[i]) {
        assert i == 0 || Has(p, MandatoryPermissions[0]);
        assert i <= 1 || Has(p, MandatoryPermissions[1]);
        assert i <= 2 || Has(p, MandatoryPermissions[2]);
        return Some(MandatoryPermissions[i]);
      }
      i := i + 1;
    }
    assert Has(p, MandatoryPermissions[0]) && Has(p, MandatoryPermissions[1]);
    assert Has(p, MandatoryPermissions[2]) && Has(p, MandatoryPermissions[3]);
    return None;
  }

  /** The first permission the bot lacks, read off the four flags in the
      constructor's order. */
  function FirstLacking(p: Permissions): Option<Permission> {
    if !p.sendMessages then Some(SendMessages)
    else if !p.embedLinks then Some(EmbedLinks)
    else if !p.addReactions then Some(AddReactions)
    else if !p.readMessageHistory then Some(ReadMessageHistory)
    else None
  }

  /** The attributes `__init__` has set on `self` when the permission loop runs. */
  const AssignedAtGate: set<string> :=
    {"ctx", "bot", "entries", "max_size", "show_page_length", "permissions"}

  /** The attributes of `self` the failure message reads, in the order the
      f-string evaluates them (`self.guild.name`, then `self.guild.id`). */
  const MessageReads: seq<string> := ["guild", "guild"]

  /** The first attribute in `names` that is not among `attrs`: reading it
      raises `AttributeError`. */
  function FirstUnset(attrs: set<string>, names: seq<string>): (r: Option<string>)
    ensures r.None? <==> forall i | 0 <= i < |names| :: names[i] in attrs
    ensures r.Some? ==> r.value in names && r.value !in attrs
    ensures r.Some? ==> exists i | 0 <= i < |names| ::
      names[i] == r.value && forall j | 0 <= j < i :: names[j] in attrs
  {
    if |names| == 0 then None
    else if names[0] !in attrs then Some(names[0])
    else FirstUnset(attrs, names[1..])
  }

  /** The permission loop as written, for a `self` whose set attributes
      are `attrs`: at the first missing permission the message is built
      before `CannotPaginate` is raised, so an unset attribute it reads
      raises `AttributeError` instead. */
  function GateAsWritten(p: Permissions, attrs: set<string>): (raised: Option<InitError>)
    ensures raised.None? <==> Granted(p)
  {
    match FirstLacking(p)
    case None => None
    case Some(q) =>
      match FirstUnset(attrs, MessageReads)
      case Some(name) => Some(AttributeError(name))
      case None => Some(CannotPaginate(q))
  }

  // ---------------------------------------------------------------------
  // Glyph table
  // ---------------------------------------------------------------------

  const FirstKey := "first_page_emoji"
  const PrevKey := "prev_page_emoji"
  const NextKey := "next_page_emoji"
  const LastKey := "last_page_emoji"
  const ExitKey := "exit_emoji"

  /** The table's keys in the order the dictionary literal lists them. */
  const GlyphKeys: seq<string> := [FirstKey, PrevKey, NextKey, LastKey, ExitKey]

  const DefaultGlyphs: map<string, Glyph> := map[
    FirstKey := "\U{23EE}\U{FE0F}",
    PrevKey := "\U{2B05}\U{FE0F}",
    NextKey := "\U{27A1}\U{FE0F}",
    LastKey := "\U{23ED}\U{FE0F}",
    ExitKey := "<:trashcan:722035312238526505>"]

  /** A table with exactly the five action keys. */
  predicate Complete(glyphs: map<string, Glyph>) {
    FirstKey in glyphs && PrevKey in glyphs && NextKey in glyphs && LastKey in glyphs && ExitKey in glyphs
  }

  /** The table `send` ends up with for the keyword arguments `overrides`. */
  function GlyphTable(overrides: map<string, Glyph>): (glyphs: map<string, Glyph>)
    ensures Complete(glyphs)
  {
    map k | k in DefaultGlyphs :: if k in overrides then overrides[k] else DefaultGlyphs[k]
  }

  /** The override loop of `send`: starting from the defaults, each of the
      five keys that appears among the keyword arguments takes its value. */
  method MergeGlyphs(overrides: map<string, Glyph>) returns (glyphs: map<string, Glyph>)
    ensures glyphs.Keys == DefaultGlyphs.Keys
    ensures forall k | k in glyphs && k in overrides :: glyphs[k] == overrides[k]
    ensures forall k | k in glyphs && k !in overrides :: glyphs[k] == DefaultGlyphs[k]
    ensures glyphs == GlyphTable(overrides)
  {
    glyphs := DefaultGlyphs;
    var i := 0;
    while i < |GlyphKeys|
      invariant 0 <= i <= |GlyphKeys|
      invariant glyphs.Keys == DefaultGlyphs.Keys
      invariant forall j | 0 <= j < |GlyphKeys| ::
        glyphs[GlyphKeys[j]] ==
          if j < i && GlyphKeys[j] in overrides then overrides[GlyphKeys[j]] else DefaultGlyphs[GlyphKeys[j]]
    {
      var key := GlyphKeys[i];
      if key in overrides {
        glyphs := glyphs[key := overrides[key]];
      }
      i := i + 1;
    }
    assert forall k | k in DefaultGlyphs ::
      (k == GlyphKeys[0] || k == GlyphKeys[1] || k == GlyphKeys[2] || k == GlyphKeys[3] || k == GlyphKeys[4]);
  }

  /** `reaction_emojis.values()`, in the dictionary's order. */
  function GlyphValues(glyphs: map<string, Glyph>): seq<Glyph>
    requires Complete(glyphs)
  {
    [glyphs[FirstKey], glyphs[PrevKey], glyphs[NextKey], glyphs[LastKey], glyphs[ExitKey]]
  }

  /** The five glyphs are pairwise different, so each reaction selects one action. */
  predicate Distinct(glyphs: map<string, Glyph>)
    requires Complete(glyphs)
  {
    forall i, j | 0 <= i < j < 5 :: GlyphValues(glyphs)[i] != GlyphValues(glyphs)[j]
  }

  // ---------------------------------------------------------------------
  // The navigation session
  // ---------------------------------------------------------------------

  /** What one run of `send` works with: the pages, the footer flag, the
      merged glyph table, the id of the sent message, the bot's user id and
      the command author's id. */
  datatype Session = Session(
    pages: seq<string>,
    showPageLength: bool,
    glyphs: map<string, Glyph>,
    messageId: MessageId,
    botId: UserId,
    authorId: UserId)
  {
    predicate Valid() {
      |pages| >= 1 && Complete(glyphs)
    }
  }

  /** The loop's page index together with the message. */
  datatype Nav = Nav(page: nat, msg: Message)

  datatype Outcome =
    | Waiting   // the events ran out while the loop was still waiting
    | TimedOut  // the wait timed out: reactions cleared, loop left
    | Exited    // the exit glyph: message deleted, `send` returned

  datatype Final = Final(outcome: Outcome, nav: Nav)

  datatype StepResult = Continue(nav: Nav) | Stop(outcome: Outcome, nav: Nav)

  /** The footer text `"Page {page + 1}/{total}"`. */
  function FooterText(page: nat, total: nat): (text: string)
    ensures |text| >= 8 && text[..5] == "Page "
    ensures forall i | 5 <= i < |text| :: text[i] == '/' || Decimal.IsDigit(text[i])
  {
    "Page " + Decimal.Show(page + 1) + "/" + Decimal.Show(total)
  }

  /** The embed's footer once page `page` is rendered: set when the page
      length is shown, otherwise left as it was. */
  function Footer(s: Session, page: nat, previous: Option<string>): Option<string> {
    if s.showPageLength then Some(FooterText(page, |s.pages|)) else previous
  }

  /** Render page `page` into the embed and edit the message to show it. */
  function Render(s: Session, page: nat, m: Message): Message
    requires page < |s.pages|
  {
    Edit(m, s.pages[page], Footer(s, page, m.footer))
  }

  /** The message shows page `nav.page`, with the matching footer when the page length is shown. */
  predicate Rendered(s: Session, nav: Nav) {
    && nav.page < |s.pages|
    && nav.msg.description == s.pages[nav.page]
    && (s.showPageLength ==> nav.msg.footer == Some(FooterText(nav.page, |s.pages|)))
  }

  /** The `check` handed to `wait_for`: the reaction is on the sent message,
      its glyph is one of the table's, and it was added by the command's
      author, who is neither this bot nor any bot. */
  predicate Qualifies(s: Session, ev: Event): (ok: bool)
    requires Complete(s.glyphs)
    ensures ok ==> ev.Reaction?
    ensures s.authorId == s.botId ==> !ok
  {
    && ev.Reaction?
    && ev.messageId == s.messageId
    && ev.emoji in GlyphValues(s.glyphs)
    && ev.userId != s.botId
    && !ev.userIsBot
    && ev.userId == s.authorId
  }

  /** Remove the triggering reaction, go to page `page` and show it. */
  function Jump(s: Session, m: Message, emoji: Glyph, user: UserId, page: nat): Nav
    requires page < |s.pages|
  {
    Nav(page, Render(s, page, RemoveReaction(m, emoji, user)))
  }

  /** The next-page branch. */
  function PressNext(s: Session, st: Nav, emoji: Glyph, user: UserId): (r: Nav)
    requires s.Valid() && st.page < |s.pages|
    ensures r.page < |s.pages|
  {
    if emoji == s.glyphs[NextKey] then
      if st.page == |s.pages| - 1 then Nav(st.page, RemoveReaction(st.msg, emoji, user))
      else Jump(s, st.msg, emoji, user, st.page + 1)
    else st
  }

  /** A qualifying reaction other than exit. The four branches are separate
      `if`s tried in the order first, last, prev, next, so a glyph bound to
      several actions runs each of them; a prev or next press at the edge
      removes the reaction and skips the branches after it. */
  function React(s: Session, st: Nav, emoji: Glyph, user: UserId): (r: Nav)
    requires s.Valid() && st.page < |s.pages|
    ensures r.page < |s.pages|
  {
    var afterLast := PressLast(s, PressFirst(s, st, emoji, user), emoji, user);
    if emoji == s.glyphs[PrevKey] then
      if afterLast.page == 0 then Nav(0, RemoveReaction(afterLast.msg, emoji, user))
      else PressNext(s, Jump(s, afterLast.msg, emoji, user, afterLast.page - 1), emoji, user)
    else PressNext(s, afterLast, emoji, user)
  }

  /** The first-page branch. */
  function PressFirst(s: Session, st: Nav, emoji: Glyph, user: UserId): (r: Nav)
    requires s.Valid() && st.page < |s.pages|
    ensures r.page < |s.pages|
  {
    if emoji == s.glyphs[FirstKey] then Jump(s, st.msg, emoji, user, 0) else st
  }

  /** The last-page branch. */
  function PressLast(s: Session, st: Nav, emoji: Glyph, user: UserId): (r: Nav)
    requires s.Valid() && st.page < |s.pages|
    ensures r.page < |s.pages|
  {
    if emoji == s.glyphs[LastKey] then Jump(s, st.msg, emoji, user, |s.pages| - 1) else st
  }

  /** One pass of the loop: one result of the wait. */
  function Step(s: Session, st: Nav, ev: Event): (r: StepResult)
    requires s.Valid() && st.page < |s.pages|
    ensures r.nav.page < |s.pages|
  {
    match ev
    case Timeout => Stop(TimedOut, Nav(st.page, ClearReactions(st.msg)))
    case Reaction(_, emoji, user, _) =>
      var arrived := Nav(st.page, Deliver(st.msg, ev));
      if !Qualifies(s, ev) then Continue(arrived)
      else if emoji == s.glyphs[ExitKey] then Stop(Exited, Nav(st.page, Delete(arrived.msg)))
      else Continue(React(s, arrived, emoji, user))
  }

  /** The loop over a finite sequence of wait results. */
  function Loop(s: Session, st: Nav, events: seq<Event>): (r: Final)
    requires s.Valid() && st.page < |s.pages|
    ensures r.nav.page < |s.pages|
    ensures r.outcome == Waiting ==> Timeout !in events
    decreases |events|
  {
    if events == [] then Final(Waiting, st)
    else match Step(s, st, events[0])
      case Stop(outcome, nav) => Final(outcome, nav)
      case Continue(nav) => Loop(s, nav, events[1..])
  }

  /** One turn of `Loop` on the events from index `i` on. */
  lemma LoopStep(s: Session, st: Nav, events: seq<Event>, i: nat)
    requires s.Valid() && st.page < |s.pages| && i < |events|
    ensures Loop(s, st, events[i..]) ==
      match Step(s, st, events[i])
      case Stop(outcome, nav) => Final(outcome, nav)
      case Continue(nav) => Loop(s, nav, events[i + 1..])
  {
    assert events[i..][1..] == events[i + 1..];
  }

  /** The bot's reactions for `glyphs`, added in order. */
  function AddAllReactions(m: Message, botId: UserId, glyphs: seq<Glyph>): (r: Message)
    ensures r.id == m.id && r.description == m.description && r.footer == m.footer && r.deleted == m.deleted
    ensures r.reactions == m.reactions + set g | g in glyphs :: (g, botId)
    ensures r.log == m.log + seq(|glyphs|, i requires 0 <= i < |glyphs| => Reacted(glyphs[i]))
    decreases |glyphs|
  {
    if glyphs == [] then m
    else AddReaction(AddAllReactions(m, botId, glyphs[..|glyphs| - 1]), botId, glyphs[|glyphs| - 1])
  }

  /** The state the loop starts in: page 0 rendered and sent, then the five
      glyphs added as reactions. `embedFooter` is the embed's footer before
      `send`, kept when the page length is not shown. */
  function Opened(s: Session, embedFooter: Option<string>): Nav
    requires s.Valid()
  {
    Nav(0, AddAllReactions(Post(s.messageId, s.pages[0], Footer(s, 0, embedFooter)), s.botId, GlyphValues(s.glyphs)))
  }

  /** A whole run of `send`. */
  function Run(s: Session, embedFooter: Option<string>, events: seq<Event>): (r: Final)
    requires s.Valid()
    ensures r.nav.page < |s.pages|
    ensures r.outcome == Waiting ==> Timeout !in events
  {
    Loop(s, Opened(s, embedFooter), events)
  }

  // ---------------------------------------------------------------------
  // The paginator object
  // ---------------------------------------------------------------------

  /** The invoking context: the command author and the bot's own user. */
  datatype Context = Context(authorId: UserId, botId: UserId)

  class Paginator {
    const ctx: Context
    /** The pages cut from the entries by discord's own paginator. */
    const pages: seq<string>
    const showPageLength: bool
    /** `self.page`: the page `send` starts from. */
    var page: nat
    /** `self.embed`: its description and footer text. */
    var description: Option<string>
    var footer: Option<string>

    ghost predicate Valid()
      reads this
    {
      page == 0
    }

    /** The constructor once the permission check has passed. */
    constructor (ctx: Context, pages: seq<string>, showPageLength: bool, perms: Permissions)
      requires Granted(perms)
      ensures Valid()
      ensures this.ctx == ctx && this.pages == pages && this.showPageLength == showPageLength
      ensures description == None && footer == None
    {
      this.ctx := ctx;
      this.pages := pages;
      this.showPageLength := showPageLength;
      page := 0;
      description := None;
      footer := None;
    }

    /** `Paginator(ctx, entries, ...)`: fails, naming the first missing
        permission, unless all four are granted. */
    static method Create(ctx: Context, pages: seq<string>, showPageLength: bool, perms: Permissions)
      returns (r: Result<Paginator, InitError>)
      ensures r.Success? <==> Granted(perms)
      ensures r.Failure? ==> r.error.CannotPaginate? && !Has(perms, r.error.missing)
      ensures r.Failure? ==> Some(r.error) == GateAsWritten(perms, AssignedAtGate + {"guild"})
      ensures r.Success? ==> fresh(r.value) && r.value.Valid()
      ensures r.Success? ==> r.value.ctx == ctx && r.value.pages == pages && r.value.showPageLength == showPageLength
      ensures r.Success? ==> r.value.description == None && r.value.footer == None
    {
      var missing := FirstMissing(perms);
      if missing.Some? {
        return Failure(CannotPaginate(missing.value));
      }
      var p := new Paginator(ctx, pages, showPageLength, perms);
      return Success(p);
    }

    /** The session one `send` with these keyword arguments runs. */
    function SessionFor(messageId: MessageId, overrides: map<string, Glyph>): Session {
      Session(pages, showPageLength, GlyphTable(overrides), messageId, ctx.botId, ctx.authorId)
    }

    /** `send`: `messageId` is the id the platform gives the sent message and
        `events` are the successive results of waiting for a reaction. */
    method Send(messageId: MessageId, overrides: map<string, Glyph>, events: seq<Event>)
      returns (outcome: Outcome, message: Message)
      requires Valid() && |pages| >= 1
      modifies this`description, this`footer
      ensures Valid()
      ensures var r := Run(SessionFor(messageId, overrides), old(footer), events);
        outcome == r.outcome && message == r.nav.msg
      ensures description == Some(message.description) && footer == message.footer
    {
      var page: nat := this.page;
      description := Some(pages[page]);
      if showPageLength {
        footer := Some(FooterText(page, |pages|));
      }
      var glyphs := MergeGlyphs(overrides);
      var s := Session(pages, showPageLength, glyphs, messageId, ctx.botId, ctx.authorId);
      message := Open(s, old(footer));

      ghost var start := Nav(page, message);
      outcome := Waiting;
      var i := 0;
      while i < |events|
        invariant 0 <= i <= |events|
        invariant page < |pages|
        invariant outcome == Waiting
        invariant description == Some(message.description) && footer == message.footer
        invariant Loop(s, Nav(page, message), events[i..]) == Loop(s, start, events)
      {
        var ev := events[i];
        LoopStep(s, Nav(page, message), events, i);
        i := i + 1;
        if ev.Timeout? {
          message := ClearReactions(message);
          outcome := TimedOut;
          assert Loop(s, start, events) == Final(outcome, Nav(page, message));
          break;
        }
        message := Deliver(message, ev);
        if !Qualifies(s, ev) {
          continue;
        }
        if ev.emoji == glyphs[ExitKey] {
          message := Delete(message);
          outcome := Exited;
          return;
        }
        page, message := Press(s, page, message, ev.emoji, ev.userId);
      }
    }

    /** Send the rendered embed, add the five glyphs as reactions in the
        table's order, and render page 0 into the embed once more. */
    method Open(s: Session, ghost embedFooter: Option<string>) returns (message: Message)
      requires s.Valid() && s.pages == pages && s.showPageLength == showPageLength && s.botId == ctx.botId
      requires description == Some(pages[0]) && footer == Footer(s, 0, embedFooter)
      modifies this`description, this`footer
      ensures Nav(0, message) == Opened(s, embedFooter)
      ensures description == Some(message.description) && footer == message.footer
    {
      message := Post(s.messageId, description.value, footer);
      ghost var posted := message;
      var values := GlyphValues(s.glyphs);
      var k := 0;
      while k < |values|
        invariant 0 <= k <= |values|
        invariant message == AddAllReactions(posted, s.botId, values[..k])
      {
        assert values[..k + 1][..k] == values[..k];
        message := AddReaction(message, ctx.botId, values[k]);
        k := k + 1;
      }
      assert values[..|values|] == values;

      description := Some(pages[0]);
      if showPageLength {
        footer := Some(FooterText(0, |pages|));
      }
    }

    /** Lines shared by every move: put page `page` into the embed (and its
        footer when the page length is shown), then edit the message. */
    method ShowPage(s: Session, page: nat, m: Message) returns (shown: Message)
      requires s.pages == pages && s.showPageLength == showPageLength
      requires page < |pages| && footer == m.footer
      modifies this`description, this`footer
      ensures shown == Render(s, page, m)
      ensures description == Some(shown.description) && footer == shown.footer
    {
      description := Some(pages[page]);
      if showPageLength {
        footer := Some(FooterText(page, |pages|));
      }
      shown := Edit(m, description.value, footer);
    }

    /** The first-, last-, prev- and next-page branches of the loop body for a
        qualifying reaction that is not the exit glyph; an early `return` is
        the source's `continue`. */
    method Press(s: Session, page: nat, m: Message, emoji: Glyph, user: UserId)
      returns (page': nat, m': Message)
      requires s.Valid() && s.pages == pages && s.showPageLength == showPageLength
      requires page < |pages| && description == Some(m.description) && footer == m.footer
      modifies this`description, this`footer
      ensures Nav(page', m') == React(s, Nav(page, m), emoji, user)
      ensures description == Some(m'.description) && footer == m'.footer
    {
      page', m' := page, m;
      if emoji == s.glyphs[FirstKey] {
        m' := RemoveReaction(m', emoji, user);
        page' := 0;
        m' := ShowPage(s, page', m');
      }
      assert Nav(page', m') == PressFirst(s, Nav(page, m), emoji, user);
      ghost var afterFirst := Nav(page', m');
      if emoji == s.glyphs[LastKey] {
        m' := RemoveReaction(m', emoji, user);
        page' := |pages| - 1;
        m' := ShowPage(s, page', m');
      }
      assert Nav(page', m') == PressLast(s, afterFirst, emoji, user);
      ghost var afterLast := Nav(page', m');
      if emoji == s.glyphs[PrevKey] {
        m' := RemoveReaction(m', emoji, user);
        if page' == 0 {
          return;
        }
        page' := page' - 1;
        m' := ShowPage(s, page', m');
      }
      ghost var beforeNext := Nav(page', m');
      if emoji == s.glyphs[NextKey] {
        m' := RemoveReaction(m', emoji, user);
        if page' == |pages| - 1 {
          assert Nav(page', m') == PressNext(s, beforeNext, emoji, user);
          return;
        }
        page' := page' + 1;
        m' := ShowPage(s, page', m');
      }
      assert Nav(page', m') == PressNext(s, beforeNext, emoji, user);
    }
  }
}
