/** What the navigator promises, stated over the specification functions of
    module Paginator: the effect of each action, the no-ops at the edges,
    the consequences of two actions sharing a glyph, the filter, the page
    invariant kept by the loop and the ways the loop ends. */
module PaginatorProperties {
  import opened Wrappers
  import opened Discord
  import opened Paginator
  import Decimal

  // ---------------------------------------------------------------------
  // Construction
  // ---------------------------------------------------------------------

  /** As written, a missing permission never surfaces as `CannotPaginate`:
      the attributes set before the permission loop do not include `guild`,
      so whichever permission is missing, building the failure message
      raises `AttributeError` for `guild`. */
  lemma GateRaisesAttributeError(p: Permissions)
    requires !Granted(p)
    ensures GateAsWritten(p, AssignedAtGate) == Some(AttributeError("guild"))
    ensures forall q :: GateAsWritten(p, AssignedAtGate) != Some(CannotPaginate(q))
  {
    assert "guild" !in AssignedAtGate;
    assert FirstUnset(AssignedAtGate, MessageReads) == Some("guild");
  }

  /** A concrete case: a channel where the bot may not add reactions. */
  lemma NoReactionsRaisesAttributeError()
    ensures GateAsWritten(Permissions(true, true, false, true), AssignedAtGate).value.AttributeError?
  {
    GateRaisesAttributeError(Permissions(true, true, false, true));
  }

  /** Were `guild` set, the loop as written would raise `CannotPaginate` for
      the first missing permission, which is what the corrected gate does. */
  lemma GateWithGuildNamesFirstMissing(p: Permissions, attrs: set<string>)
    requires "guild" in attrs
    ensures !Granted(p) ==> GateAsWritten(p, attrs) == Some(CannotPaginate(FirstLacking(p).value))
    ensures !Granted(p) ==> !Has(p, FirstLacking(p).value)
  {
    assert FirstUnset(attrs, MessageReads) == None;
  }

  // ---------------------------------------------------------------------
  // Glyph table
  // ---------------------------------------------------------------------

  /** The default glyphs are pairwise different. */
  lemma DefaultGlyphsDistinct()
    ensures Distinct(GlyphTable(map[]))
  {
  }

  /** A keyword argument that names none of the five actions has no effect on the table. */
  lemma ExtraKeywordIgnored(overrides: map<string, Glyph>, key: string, glyph: Glyph)
    requires key !in DefaultGlyphs
    ensures GlyphTable(overrides[key := glyph]) == GlyphTable(overrides)
  {
  }

  // ---------------------------------------------------------------------
  // Actions
  // ---------------------------------------------------------------------

  /** First-page goes to page 0 whatever the page was: the reaction is
      removed and the message edited to show page 0. */
  lemma FirstPageGoesToZero(s: Session, st: Nav, user: UserId)
    requires s.Valid() && Distinct(s.glyphs) && st.page < |s.pages|
    ensures var emoji := s.glyphs[FirstKey];
      React(s, st, emoji, user) == Nav(0, Render(s, 0, RemoveReaction(st.msg, emoji, user)))
  {
    assert GlyphValues(s.glyphs)[0] != GlyphValues(s.glyphs)[1];
    assert GlyphValues(s.glyphs)[0] != GlyphValues(s.glyphs)[2];
    assert GlyphValues(s.glyphs)[0] != GlyphValues(s.glyphs)[3];
  }

  /** Last-page goes to the last page whatever the page was. */
  lemma LastPageGoesToEnd(s: Session, st: Nav, user: UserId)
    requires s.Valid() && Distinct(s.glyphs) && st.page < |s.pages|
    ensures var emoji := s.glyphs[LastKey];
      React(s, st, emoji, user) ==
        Nav(|s.pages| - 1, Render(s, |s.pages| - 1, RemoveReaction(st.msg, emoji, user)))
  {
    assert GlyphValues(s.glyphs)[0] != GlyphValues(s.glyphs)[3];
    assert GlyphValues(s.glyphs)[1] != GlyphValues(s.glyphs)[3];
    assert GlyphValues(s.glyphs)[2] != GlyphValues(s.glyphs)[3];
  }

  /** Prev on page 0 only removes the reaction: the page stays and the
      message is not edited. This holds even if prev shares its glyph with
      next, because the `continue` skips the next-page branch. */
  lemma PrevOnFirstPageOnlyRemovesReaction(s: Session, msg: Message, user: UserId)
    requires s.Valid()
    requires s.glyphs[PrevKey] != s.glyphs[FirstKey] && s.glyphs[PrevKey] != s.glyphs[LastKey]
    ensures var emoji := s.glyphs[PrevKey];
      React(s, Nav(0, msg), emoji, user) == Nav(0, RemoveReaction(msg, emoji, user))
  {
  }

  /** Prev on any later page goes back exactly one page and shows it. */
  lemma PrevStepsBack(s: Session, st: Nav, user: UserId)
    requires s.Valid() && Distinct(s.glyphs) && 0 < st.page < |s.pages|
    ensures var emoji := s.glyphs[PrevKey];
      React(s, st, emoji, user) == Nav(st.page - 1, Render(s, st.page - 1, RemoveReaction(st.msg, emoji, user)))
  {
    assert GlyphValues(s.glyphs)[0] != GlyphValues(s.glyphs)[1];
    assert GlyphValues(s.glyphs)[1] != GlyphValues(s.glyphs)[2];
    assert GlyphValues(s.glyphs)[1] != GlyphValues(s.glyphs)[3];
  }

  /** Next on the last page only removes the reaction. */
  lemma NextOnLastPageOnlyRemovesReaction(s: Session, msg: Message, user: UserId)
    requires s.Valid() && Distinct(s.glyphs)
    ensures var emoji := s.glyphs[NextKey];
      React(s, Nav(|s.pages| - 1, msg), emoji, user) == Nav(|s.pages| - 1, RemoveReaction(msg, emoji, user))
  {
    assert GlyphValues(s.glyphs)[0] != GlyphValues(s.glyphs)[2];
    assert GlyphValues(s.glyphs)[1] != GlyphValues(s.glyphs)[2];
    assert GlyphValues(s.glyphs)[2] != GlyphValues(s.glyphs)[3];
  }

  /** Next on any earlier page goes forward exactly one page and shows it. */
  lemma NextStepsForward(s: Session, st: Nav, user: UserId)
    requires s.Valid() && Distinct(s.glyphs) && st.page < |s.pages| - 1
    ensures var emoji := s.glyphs[NextKey];
      React(s, st, emoji, user) == Nav(st.page + 1, Render(s, st.page + 1, RemoveReaction(st.msg, emoji, user)))
  {
    assert GlyphValues(s.glyphs)[0] != GlyphValues(s.glyphs)[2];
    assert GlyphValues(s.glyphs)[1] != GlyphValues(s.glyphs)[2];
    assert GlyphValues(s.glyphs)[2] != GlyphValues(s.glyphs)[3];
  }

  /** When first-page and last-page share a glyph, one press runs both
      branches: page 0 is shown, then the last page, with two removals and
      two edits. */
  lemma SharedFirstLastGlyphRunsBoth(s: Session, st: Nav, user: UserId)
    requires s.Valid() && st.page < |s.pages|
    requires s.glyphs[FirstKey] == s.glyphs[LastKey]
    requires s.glyphs[FirstKey] != s.glyphs[PrevKey] && s.glyphs[FirstKey] != s.glyphs[NextKey]
    ensures var emoji := s.glyphs[FirstKey];
      var shownFirst := Render(s, 0, RemoveReaction(st.msg, emoji, user));
      React(s, st, emoji, user) == Nav(|s.pages| - 1, Render(s, |s.pages| - 1, RemoveReaction(shownFirst, emoji, user)))
  {
  }

  /** When prev and next share a glyph, a press on a later page goes back and
      then forward again: the page is unchanged but the message is edited
      twice. On page 0 the `continue` of prev means only the removal happens. */
  lemma SharedPrevNextGlyphReturnsToPage(s: Session, st: Nav, user: UserId)
    requires s.Valid() && 0 < st.page < |s.pages|
    requires s.glyphs[PrevKey] == s.glyphs[NextKey]
    requires s.glyphs[PrevKey] != s.glyphs[FirstKey] && s.glyphs[PrevKey] != s.glyphs[LastKey]
    ensures var emoji := s.glyphs[PrevKey];
      var back := Render(s, st.page - 1, RemoveReaction(st.msg, emoji, user));
      React(s, st, emoji, user) == Nav(st.page, Render(s, st.page, RemoveReaction(back, emoji, user)))
  {
  }

  // ---------------------------------------------------------------------
  // The filter and the end of the loop
  // ---------------------------------------------------------------------

  /** A reaction the filter rejects changes nothing the bot controls: the
      page, the shown page, the footer and the log of calls stay; the loop
      goes on waiting. */
  lemma IgnoredReactionChangesNothing(s: Session, st: Nav, ev: Event, rest: seq<Event>)
    requires s.Valid() && st.page < |s.pages|
    requires ev.Reaction? && !Qualifies(s, ev)
    ensures var m := Deliver(st.msg, ev);
      && m.description == st.msg.description && m.footer == st.msg.footer
      && m.log == st.msg.log && m.deleted == st.msg.deleted
      && Loop(s, st, [ev] + rest) == Loop(s, Nav(st.page, m), rest)
  {
  }

  /** The length of the log never shrinks in a press, and grows with every
      press of one of the four navigation glyphs. */
  lemma ReactCallsPlatform(s: Session, st: Nav, emoji: Glyph, user: UserId)
    requires s.Valid() && st.page < |s.pages|
    ensures |React(s, st, emoji, user).msg.log| >= |st.msg.log|
    ensures emoji in [s.glyphs[FirstKey], s.glyphs[LastKey], s.glyphs[PrevKey], s.glyphs[NextKey]] ==>
      |React(s, st, emoji, user).msg.log| > |st.msg.log|
  {
  }

  /** The filter accepts only glyphs of the table, from the author. */
  lemma AcceptedGlyphIsInTable(s: Session, ev: Event)
    requires Complete(s.glyphs) && Qualifies(s, ev)
    ensures ev.emoji in s.glyphs.Values && ev.userId == s.authorId
  {
    var v := GlyphValues(s.glyphs);
    assert v[0] == s.glyphs[FirstKey] && v[1] == s.glyphs[PrevKey] && v[2] == s.glyphs[NextKey];
    assert v[3] == s.glyphs[LastKey] && v[4] == s.glyphs[ExitKey];
  }

  /** A reaction leads to a call on the platform exactly when the filter
      accepts it: all five conditions of `check` are needed and suffice. */
  lemma ActsIffQualifies(s: Session, st: Nav, ev: Event)
    requires s.Valid() && st.page < |s.pages| && ev.Reaction?
    ensures Step(s, st, ev).nav.msg.log != st.msg.log <==> Qualifies(s, ev)
  {
    var arrived := Nav(st.page, Deliver(st.msg, ev));
    assert arrived.msg.log == st.msg.log;
    if Qualifies(s, ev) && ev.emoji != s.glyphs[ExitKey] {
      assert ev.emoji in [s.glyphs[FirstKey], s.glyphs[LastKey], s.glyphs[PrevKey], s.glyphs[NextKey]];
      ReactCallsPlatform(s, arrived, ev.emoji, ev.userId);
    }
  }

  /** A timeout clears the reactions and ends the loop; the message is
      neither edited nor deleted, and the page stays. */
  lemma TimeoutClearsAndEnds(s: Session, st: Nav, rest: seq<Event>)
    requires s.Valid() && st.page < |s.pages|
    ensures var r := Loop(s, st, [Timeout] + rest);
      && r.outcome == TimedOut && r.nav.page == st.page
      && r.nav.msg == st.msg.(reactions := {}, log := st.msg.log + [Cleared])
  {
  }

  /** The exit glyph, from the author, deletes the message and ends the loop
      on any page, whatever comes after: its reaction is not removed and the
      message is not edited. */
  lemma ExitDeletesAndEnds(s: Session, st: Nav, ev: Event, rest: seq<Event>)
    requires s.Valid() && st.page < |s.pages|
    requires st.msg.id == s.messageId && Qualifies(s, ev) && ev.emoji == s.glyphs[ExitKey]
    ensures var r := Loop(s, st, [ev] + rest);
      var m := Deliver(st.msg, ev);
      && r.outcome == Exited && r.nav.page == st.page
      && r.nav.msg == m.(deleted := true, log := st.msg.log + [Deleted])
      && (ev.emoji, ev.userId) in r.nav.msg.reactions
  {
  }

  /** How a run ends, read off the events alone: at the first timeout, or at
      the first exit glyph the filter accepts, whichever comes first;
      otherwise the loop is still waiting. */
  function EndOf(s: Session, events: seq<Event>): Outcome
    requires Complete(s.glyphs)
    decreases |events|
  {
    if events == [] then Waiting
    else if events[0].Timeout? then TimedOut
    else if Qualifies(s, events[0]) && events[0].emoji == s.glyphs[ExitKey] then Exited
    else EndOf(s, events[1..])
  }

  /** The outcome does not depend on the pages or on the page reached. */
  lemma {:induction false} LoopEndsAsEventsSay(s: Session, st: Nav, events: seq<Event>)
    requires s.Valid() && st.page < |s.pages|
    ensures Loop(s, st, events).outcome == EndOf(s, events)
    decreases |events|
  {
    if events != [] {
      match Step(s, st, events[0])
      case Stop(_, _) =>
      case Continue(nav) => LoopEndsAsEventsSay(s, nav, events[1..]);
    }
  }

  // ---------------------------------------------------------------------
  // The page invariant
  // ---------------------------------------------------------------------

  /** `send` starts on page 0: the sent message shows the first page and, when
      the page length is shown, the footer "Page 1/n"; the bot's five
      reactions follow the send, in the table's order. */
  lemma OpenedShowsFirstPage(s: Session, embedFooter: Option<string>)
    requires s.Valid()
    ensures var st := Opened(s, embedFooter);
      && st.page == 0 && Rendered(s, st) && !st.msg.deleted && st.msg.id == s.messageId
      && (s.showPageLength ==> st.msg.footer == Some("Page 1/" + Decimal.Show(|s.pages|)))
      && st.msg.reactions == (set g | g in GlyphValues(s.glyphs) :: (g, s.botId))
      && st.msg.log[0] == Sent(s.pages[0], st.msg.footer)
      && st.msg.log[1..] == seq(5, i requires 0 <= i < 5 => Reacted(GlyphValues(s.glyphs)[i]))
  {
    assert Decimal.Show(1) == "1";
    assert FooterText(0, |s.pages|) == "Page 1/" + Decimal.Show(|s.pages|);
  }

  /** Every press leaves the message showing the page the loop is on. */
  lemma ReactKeepsRendered(s: Session, st: Nav, emoji: Glyph, user: UserId)
    requires s.Valid() && Rendered(s, st)
    ensures Rendered(s, React(s, st, emoji, user))
  {
  }

  /** The loop keeps `0 <= page < len(pages)`, and the message keeps showing
      `pages[page]` with the footer of that page, whatever the events. */
  lemma {:induction false} LoopKeepsRendered(s: Session, st: Nav, events: seq<Event>)
    requires s.Valid() && Rendered(s, st)
    ensures Rendered(s, Loop(s, st, events).nav)
    decreases |events|
  {
    if events != [] {
      var ev := events[0];
      if ev.Reaction? {
        var arrived := Nav(st.page, Deliver(st.msg, ev));
        assert Rendered(s, arrived);
        if Qualifies(s, ev) && ev.emoji != s.glyphs[ExitKey] {
          ReactKeepsRendered(s, arrived, ev.emoji, ev.userId);
        }
      }
      match Step(s, st, ev)
      case Stop(_, _) =>
      case Continue(nav) => LoopKeepsRendered(s, nav, events[1..]);
    }
  }

  /** A whole run of `send` ends with the message showing a page in range,
      with the footer of that page. */
  lemma RunShowsCurrentPage(s: Session, embedFooter: Option<string>, events: seq<Event>)
    requires s.Valid()
    ensures Rendered(s, Run(s, embedFooter, events).nav)
  {
    OpenedShowsFirstPage(s, embedFooter);
    LoopKeepsRendered(s, Opened(s, embedFooter), events);
  }

  // ---------------------------------------------------------------------
  // Reading the footer
  // ---------------------------------------------------------------------

  /** The position of the first `c` in `text`. */
  function IndexOf(text: string, c: char): (r: Option<nat>)
    ensures r.Some? ==> r.value < |text| && text[r.value] == c && c !in text[..r.value]
    ensures r.None? ==> c !in text
    decreases |text|
  {
    if text == [] then None
    else if text[0] == c then Some(0)
    else match IndexOf(text[1..], c)
      case None => None
      case Some(k) => Some(k + 1)
  }

  /** The page number and page count a footer text shows, if it has the form `"Page a/b"`. */
  function ReadFooter(text: string): Option<(nat, nat)> {
    if |text| < 5 || text[..5] != "Page " then None
    else
      var rest := text[5..];
      match IndexOf(rest, '/')
      case None => None
      case Some(k) =>
        match (Decimal.Parse(rest[..k]), Decimal.Parse(rest[k + 1..]))
        case (Some(a), Some(b)) => Some((a, b))
        case _ => None
  }

  lemma IndexOfAfterDigits(digits: string, tail: string)
    requires Decimal.AllDigits(digits)
    ensures IndexOf(digits + "/" + tail, '/') == Some(|digits|)
  {
    var text := digits + "/" + tail;
    assert text[|digits|] == '/';
    assert text[..|digits|] == digits;
  }

  /** A footer built from two digit strings reads back as the numbers they denote. */
  lemma ReadFooterOfDigits(a: string, b: string)
    requires |a| >= 1 && Decimal.AllDigits(a) && |b| >= 1 && Decimal.AllDigits(b)
    ensures ReadFooter("Page " + (a + "/" + b)) == Some((Decimal.Parse(a).value, Decimal.Parse(b).value))
  {
    var rest := a + "/" + b;
    var text := "Page " + rest;
    assert text[..5] == "Page " && text[5..] == rest;
    IndexOfAfterDigits(a, b);
    assert rest[..|a|] == a && rest[|a| + 1..] == b;
  }

  /** The footer states the page number, one more than the index, and the page count. */
  lemma FooterRoundTrip(page: nat, total: nat)
    ensures ReadFooter(FooterText(page, total)) == Some((page + 1, total))
  {
    var a, b := Decimal.Show(page + 1), Decimal.Show(total);
    assert FooterText(page, total) == "Page " + (a + "/" + b);
    ReadFooterOfDigits(a, b);
    Decimal.ParseShow(page + 1);
    Decimal.ParseShow(total);
  }

  /** After any run with the page length shown, the footer reads the page
      index plus one over the number of pages. */
  lemma RunFooterReadsPage(s: Session, embedFooter: Option<string>, events: seq<Event>)
    requires s.Valid() && s.showPageLength
    ensures var nav := Run(s, embedFooter, events).nav;
      nav.msg.footer.Some? && ReadFooter(nav.msg.footer.value) == Some((nav.page + 1, |s.pages|))
  {
    RunShowsCurrentPage(s, embedFooter, events);
    var nav := Run(s, embedFooter, events).nav;
    FooterRoundTrip(nav.page, |s.pages|);
  }
}
