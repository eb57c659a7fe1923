/** The strengthening of an ask's filter by RegisterAsk (internal/correlation/ask.go). */
module AskFilter {
  import opened Wrappers
  import opened Events
  import opened Filter
  import opened FilterSemantics

  datatype AskRequest = AskRequest(
    correlationID: string,
    accountID: string,
    outboundEventID: string,
    botUserID: string,
    filter: FilterNode)

  /** Default the reply target to the outbound event. */
  function WithReplyTarget(req: AskRequest): FilterNode {
    if req.filter.inReplyTo == "" && req.outboundEventID != ""
    then req.filter.(inReplyTo := req.outboundEventID)
    else req.filter
  }

  /** Append the bot to the sender exclusions. */
  function WithoutBot(f: FilterNode, bot: string): FilterNode {
    if bot == "" then f
    else
      var s := if f.senderID.None? then SetFilter([], []) else f.senderID.value;
      f.(senderID := Some(s.(excluded := s.excluded + [bot])))
  }

  function Strengthen(req: AskRequest): FilterNode {
    WithoutBot(WithReplyTarget(req), req.botUserID)
  }

  method PrepareFilter(req: AskRequest) returns (filter: FilterNode)
    ensures filter == Strengthen(req)
  {
    filter := req.filter;
    if filter.inReplyTo == "" && req.outboundEventID != "" {
      filter := filter.(inReplyTo := req.outboundEventID);
    }
    if req.botUserID != "" {
      if filter.senderID.None? {
        filter := filter.(senderID := Some(SetFilter([], [])));
      }
      var s := filter.senderID.value;
      filter := filter.(senderID := Some(s.(excluded := s.excluded + [req.botUserID])));
    }
  }

  /** A defaulted reply target adds exactly "is a message replying to the outbound event". */
  lemma DefaultAddsReply(re: Regexp, req: AskRequest, env: Envelope)
    requires req.filter.inReplyTo == "" && req.outboundEventID != ""
    ensures Sem(re, WithReplyTarget(req), env) <==>
            Sem(re, req.filter, env) && env.payload.Message? && env.payload.inReplyTo == req.outboundEventID
  {
    hide Holds;
    var f, g := req.filter, WithReplyTarget(req);
    var extra := RepliesTo(req.outboundEventID);
    assert forall a :: HasAtom(g, a) <==> HasAtom(f, a) || a == extra;
    assert AtomsHold(re, g, env) <==> AtomsHold(re, f, env) && Holds(re, extra, env) by {
      assert HasAtom(g, extra);
    }
    ReplyHolds(re, req.outboundEventID, env);
  }

  lemma ReplyHolds(re: Regexp, target: string, env: Envelope)
    ensures Holds(re, RepliesTo(target), env) <==> env.payload.Message? && env.payload.inReplyTo == target
  {
  }

  /** Excluding the bot adds exactly "the sender or user is not the bot". */
  lemma ExclusionIsExact(re: Regexp, f: FilterNode, bot: string, env: Envelope)
    requires bot != ""
    ensures Sem(re, WithoutBot(f, bot), env) <==> Sem(re, f, env) && SenderOf(env.payload) != Some(bot)
  {
    var g := WithoutBot(f, bot);
    var was := if f.senderID.None? then SetFilter([], []) else f.senderID.value;
    var now := g.senderID.value;
    assert forall a: Atom :: !a.Sender? ==> (HasAtom(g, a) <==> HasAtom(f, a));
    if Inbound(env) {
      var sender := SenderOf(env.payload).value;
      assert Admits(now, sender) <==> Admits(was, sender) && sender != bot;
      assert Holds(re, Sender(now), env) <==> Holds(re, Sender(was), env) && sender != bot;
      assert HasAtom(g, Sender(now));
      assert f.senderID.Some? ==> HasAtom(f, Sender(was));
      assert AtomsHold(re, g, env) <==> AtomsHold(re, f, env) && sender != bot by {
        hide Holds, Admits;
        if AtomsHold(re, g, env) {
          forall a | HasAtom(f, a) ensures Holds(re, a, env) {
            assert a.Sender? ==> a == Sender(was);
            assert !a.Sender? ==> HasAtom(g, a);
          }
        }
        if sender != bot && AtomsHold(re, f, env) {
          EmptySetAdmits(re, env);
          forall a | HasAtom(g, a) ensures Holds(re, a, env) {
            assert a.Sender? ==> a == Sender(now);
          }
        }
      }
    }
  }

  lemma EmptySetAdmits(re: Regexp, env: Envelope)
    requires Inbound(env)
    ensures Holds(re, Sender(SetFilter([], [])), env)
  {
  }

  /** The registered filter, as compiled, on every envelope. */
  lemma RegisteredFilterIsExact(re: Regexp, req: AskRequest, env: Envelope)
    requires NewCompiledFilter(re, Some(Strengthen(req))).Success?
    ensures var defaulted := req.filter.inReplyTo == "" && req.outboundEventID != "";
            FilterMatches(re, NewCompiledFilter(re, Some(Strengthen(req))).value, env, req.accountID) <==>
              && env.accountID == req.accountID
              && Sem(re, req.filter, env)
              && (req.botUserID != "" ==> SenderOf(env.payload) != Some(req.botUserID))
              && (defaulted ==> env.payload.Message? && env.payload.inReplyTo == req.outboundEventID)
  {
    CompiledFilterMeansSource(re, Some(Strengthen(req)), env, req.accountID);
    if req.botUserID != "" {
      ExclusionIsExact(re, WithReplyTarget(req), req.botUserID, env);
    }
    if req.filter.inReplyTo == "" && req.outboundEventID != "" {
      DefaultAddsReply(re, req, env);
    }
  }
}
