# Reaction-driven paginator

This project models the page navigator of a chat bot (`utils/paginator.py`,
class `Paginator`). The navigator shows long text one page at a time in an
embed. Five reaction glyphs (first page, previous page, next page, last page,
exit) let the command's author move through the pages.

- **Construction** (`Paginator.Paginator.Create`, `Paginator.FirstMissing`):
  construction is refused unless the bot holds four channel permissions:
  send messages, embed links, add reactions and read message history. After
  that, `self.page` is 0 and the embed is empty.
- **`send`** (`Paginator.Paginator.Send`): it renders page 0 into the embed
  and merges the caller's glyph overrides into the default table
  (`Paginator.MergeGlyphs`). It sends the message and adds the five glyphs as
  reactions (`Paginator.Paginator.Open`). Then it loops over the results of
  waiting for a reaction. A reaction counts only if it passes the `check`
  filter (`Paginator.Qualifies`):
  - the exit glyph deletes the message and returns;
  - first and last jump to page 0 and to the last page;
  - prev and next move one page, but at the edges they only remove the
    reaction (`Paginator.Paginator.Press`);
  - a timeout clears the reactions and leaves the loop.
- **The platform** (module `Discord`): the message is a value. It holds the
  embed's description and footer, the set of (glyph, user) reactions on it, a
  deleted flag, and the log of the calls the bot made on it. Each call the
  loop makes (send, add/remove reaction, edit, delete, clear reactions) is a
  function on that value. A wait result is an `Event`: `Timeout`, or
  `Reaction(messageId, emoji, userId, userIsBot)`.
- **Specification**: the functions `Paginator.Step`, `Paginator.Loop` and
  `Paginator.Run` give the loop's meaning over a finite sequence of events.
  `Send` is proved to return exactly what `Run` gives. The properties are
  lemmas about these functions, in module `PaginatorProperties`.

Two features of the source are kept as written:
- The four navigation branches are separate `if`s, tried in the order exit,
  first, last, prev, next. So a glyph bound to several actions runs each of
  them in turn.
- A prev or next press at the edge `continue`s, which skips the branches
  after it.

Two lemmas show the consequences: `SharedFirstLastGlyphRunsBoth` and
`SharedPrevNextGlyphReturnsToPage`.

Three facts about the code shape the model:
- The constructor never sets `self.guild`, yet the failure message it builds
  at `utils/paginator.py:56-62` reads `self.guild.name`. A missing
  permission therefore raises `AttributeError` before `CannotPaginate` is
  raised. `Paginator.GateAsWritten` models the code as written, and
  `Paginator.Paginator.Create` models the corrected gate, which reports
  `CannotPaginate` for the first missing permission (see Findings).
- `send` indexes the first page at `utils/paginator.py:86` without a guard,
  so it fails when there are no pages. `Send` requires at least one page.
- Each navigation branch sets the loop's local `page` before it edits the
  message (for example lines 146 and 150); `self.page` is never written
  after construction. The model keeps both.

## Model

| member | source | states |
|---|---|---|
| `Paginator.FirstMissing` | utils/paginator.py:46-63 | The permission loop: None exactly when all four permissions are granted; otherwise a permission the bot lacks, with every permission before it in the checking order granted. Agrees with `FirstLacking` |
| `Paginator.Paginator.Create` | utils/paginator.py:30-72 | Construction succeeds iff all four permissions are granted. On failure it reports `CannotPaginate` for a missing permission and creates no object; that is what `GateAsWritten` raises once `guild` is set. On success the new paginator has `page == 0`, an empty embed, and the given pages and flag |
| `Paginator.Paginator.constructor` | utils/paginator.py:30-66 | Past the gate: the fields are set from the arguments, `page` is 0 and the embed has neither description nor footer |
| `Paginator.MergeGlyphs` | utils/paginator.py:93-102 | The table has exactly the five default keys. A key takes the keyword value iff the key is among the keyword arguments; otherwise it keeps its default. Agrees with `GlyphTable` |
| `PaginatorProperties.ExtraKeywordIgnored` | utils/paginator.py:100-102 | A keyword argument naming none of the five keys leaves the merged table unchanged |
| `PaginatorProperties.DefaultGlyphsDistinct` | utils/paginator.py:93-99 | The five default glyphs are pairwise different |
| `Paginator.AddAllReactions` | utils/paginator.py:107-108 | Adding the table's glyphs puts exactly one bot reaction per glyph on the message and logs them in table order. Text, id and deleted flag are unchanged |
| `Paginator.Paginator.Open` | utils/paginator.py:104-125 | The message is sent with page 0 and the five reactions are added. The state equals `Opened`, and the embed matches the message |
| `PaginatorProperties.OpenedShowsFirstPage` | utils/paginator.py:82-108 | `send` starts on page 0. The message shows `pages[0]` and, when the page length is shown, the footer `Page 1/n`. It carries the bot's five reactions, and its log is the send followed by the five reactions |
| `Paginator.Paginator.Send` | utils/paginator.py:74-191 | The outcome and final message equal `Run` for the merged table. The embed ends equal to the message's text. `self.page` is not written, so the next `send` starts at 0 again |
| `Paginator.Paginator.ShowPage` | utils/paginator.py:147-150 | Setting the embed to page `p` and editing gives `Render`: the message shows `pages[p]` and, when the page length is shown, the footer of page `p`. The embed then equals the message |
| `Paginator.Paginator.Press` | utils/paginator.py:142-191 | The four branches, run as separate `if`s with `continue` at the edges, give exactly `React`. The embed stays equal to the message |
| `Paginator.PressFirst` | utils/paginator.py:142-150 | The first-page branch keeps the page index below the page count |
| `Paginator.PressLast` | utils/paginator.py:152-161 | The last-page branch keeps the page index below the page count |
| `Paginator.PressNext` | utils/paginator.py:178-191 | The next-page branch keeps the page index below the page count |
| `Paginator.React` | utils/paginator.py:142-191 | Any navigation press leaves the page index in `[0, len(pages))` |
| `Paginator.Step` | utils/paginator.py:129-191 | Any wait result leaves the page index in `[0, len(pages))` |
| `PaginatorProperties.FirstPageGoesToZero` | utils/paginator.py:142-150 | With distinct glyphs, first-page goes to page 0 from any page. It removes the reaction and edits once, to show page 0 |
| `PaginatorProperties.LastPageGoesToEnd` | utils/paginator.py:152-161 | With distinct glyphs, last-page goes to `len(pages)-1` from any page. It removes the reaction and edits once |
| `PaginatorProperties.PrevOnFirstPageOnlyRemovesReaction` | utils/paginator.py:163-170 | Prev on page 0 only removes the reaction: no page change and no edit, even if next shares the glyph |
| `PaginatorProperties.PrevStepsBack` | utils/paginator.py:163-176 | With distinct glyphs, prev on page `p > 0` goes to `p-1`, removes the reaction and edits once to show `p-1` |
| `PaginatorProperties.NextOnLastPageOnlyRemovesReaction` | utils/paginator.py:178-185 | With distinct glyphs, next on the last page only removes the reaction: no page change and no edit |
| `PaginatorProperties.NextStepsForward` | utils/paginator.py:178-191 | With distinct glyphs, next on page `p < len-1` goes to `p+1`, removes the reaction and edits once to show `p+1` |
| `PaginatorProperties.SharedFirstLastGlyphRunsBoth` | utils/paginator.py:142-161 | If first and last share a glyph, one press shows page 0 and then the last page: two removals, two edits, ending on the last page |
| `PaginatorProperties.SharedPrevNextGlyphReturnsToPage` | utils/paginator.py:163-191 | If prev and next share a glyph, a press on page `p > 0` shows `p-1` and then `p` again: two removals, two edits, page unchanged |
| `PaginatorProperties.IgnoredReactionChangesNothing` | utils/paginator.py:111-131 | A reaction the filter rejects changes neither the page, the text, the footer nor the log of calls. The loop goes on waiting |
| `PaginatorProperties.ReactCallsPlatform` | utils/paginator.py:142-191 | A press never shortens the log of calls. A press of any navigation glyph adds at least one call |
| `PaginatorProperties.ActsIffQualifies` | utils/paginator.py:111-140 | A reaction leads to a platform call iff all five `check` conditions hold: on the sent message, one of the glyphs, not this bot, not a bot, and the author |
| `PaginatorProperties.TimeoutClearsAndEnds` | utils/paginator.py:130-136 | A timeout ends the loop with `TimedOut`. It clears all reactions and logs only the clear. The message is neither edited nor deleted |
| `PaginatorProperties.ExitDeletesAndEnds` | utils/paginator.py:138-140 | The author's exit glyph ends the loop with `Exited` on any page, whatever follows. It deletes the message and logs only the delete. The reaction is not removed |
| `PaginatorProperties.LoopEndsAsEventsSay` | utils/paginator.py:129-140 | The outcome is fixed by the events alone. The first timeout or accepted exit decides it; without either, the loop is still waiting |
| `PaginatorProperties.ReactKeepsRendered` | utils/paginator.py:142-191 | Every press leaves the message showing `pages[page]`, with the footer of `page` when shown |
| `PaginatorProperties.LoopKeepsRendered` | utils/paginator.py:129-191 | Over any events, the loop keeps `0 <= page < len(pages)`. The message keeps showing `pages[page]` and its footer |
| `PaginatorProperties.RunShowsCurrentPage` | utils/paginator.py:82-191 | A whole run of `send` ends with the message showing the page the loop is on, a page in range |
| `PaginatorProperties.FooterRoundTrip` | utils/paginator.py:90 | The footer text `Page {page+1}/{n}` reads back as the pair (page+1, n) |
| `PaginatorProperties.RunFooterReadsPage` | utils/paginator.py:124-191 | With the page length shown, after any run the footer reads the page index plus one over `len(pages)` |
| `Decimal.Show` | utils/paginator.py:90 | Integer formatting in the footer gives a non-empty string of decimal digits, one digit exactly for numbers below 10 |
| `Decimal.ParseShow` | utils/paginator.py:90 | The decimal text of a number reads back as that number |
| `Paginator.GateAsWritten` | utils/paginator.py:54-63 | The permission loop as written, for a given set of attributes already on `self`. It raises nothing iff all four permissions are granted |
| `Paginator.FirstUnset` | utils/paginator.py:59-61 | Evaluating the message's reads of `self` attributes fails on the first one not set. None iff every read attribute is set; otherwise an unset attribute that is read, with every read before it set |
| `PaginatorProperties.GateRaisesAttributeError` | utils/paginator.py:32-63 | With the attributes `__init__` has set by line 54 (`ctx`, `bot`, `entries`, `max_size`, `show_page_length`, `permissions`), every missing permission makes the loop raise `AttributeError` for `guild`, never `CannotPaginate` |
| `PaginatorProperties.NoReactionsRaisesAttributeError` | utils/paginator.py:54-63 | As written, a channel without the add-reactions permission makes construction raise `AttributeError` |
| `PaginatorProperties.GateWithGuildNamesFirstMissing` | utils/paginator.py:54-63 | With `guild` set, the loop as written raises `CannotPaginate` for the first missing permission, which the bot lacks. `Create` and `FirstMissing` give the same result |
| `Paginator.Qualifies` | utils/paginator.py:111-120 | The `check` filter accepts only reaction events, and a session whose author is the bot itself accepts nothing |
| `PaginatorProperties.AcceptedGlyphIsInTable` | utils/paginator.py:111-120 | An accepted reaction's glyph is one of the merged table's values, and it comes from the command's author |
| `Paginator.Loop` | utils/paginator.py:129-191 | The loop over wait results ends on a page in range. If it is still waiting when the events run out, no timeout occurred |
| `Paginator.Run` | utils/paginator.py:82-191 | A whole `send` ends on a page in range. If it is still waiting when the events run out, no timeout occurred |
| `Paginator.FooterText` | utils/paginator.py:90 | The footer text starts with `Page ` and holds only digits and `/` after it |

## Findings

| source | as written | input that shows it | evidently intended | confidence | as-written member | corrected member |
|---|---|---|---|---|---|---|
| utils/paginator.py:56-62 | The failure message is formatted from `self.guild`. The class never sets that attribute, so building the message raises `AttributeError` before `CannotPaginate` can be raised. | Any channel where one permission is missing, e.g. add reactions false and the other three true | Raise `CannotPaginate` naming the missing permission | high; not executed | `PaginatorProperties.GateRaisesAttributeError` | `Paginator.Paginator.Create` |

## Left out

- Page chunking: `discord.ext.commands.Paginator` cuts the entries into pages (`max_size`, `add_line`). That library is not part of this model. The pages are an input sequence, and `Send` requires at least one page because the source indexes the first page unguarded.
- The permission lookup (guild member or bot user, done twice) is a call into the platform. The four permission booleans are an input.
- The text of the failure message is not modelled; only which permission is missing. The message prints the permission's value (`False`), not its name.
- Waiting, the `timeout` duration and the event subscription are not modelled. `Timeout` in the event sequence stands for a wait that ran out. When the sequence ends without a timeout or exit, the outcome `Waiting` says the loop is still blocked.
- Failures of platform calls (network or permission errors raised by send, edit, delete and the reaction calls) are not modelled. Every call succeeds.
- Glyphs are compared as strings. The exit test and the filter use `str(reaction.emoji)`, but the other four branches compare `reaction.emoji` itself. That difference only matters for custom-emoji objects and is not modelled. Overrides given as `discord.Emoji` objects are also not modelled.
- The platform's own behaviour is a simple model. Removing a reaction that is not there does nothing, and reactions by other users pile up on the message.
- Embed colour and the embed object beyond its description and footer are not modelled.
- `bot/cogs/games/games.py` is not modelled: it is single-shot commands built on random choice, configuration data and an HTTP lookup.
