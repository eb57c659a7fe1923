/** What the sync loop guarantees over every run: no published batch is lost, and repeats
    are paid for by faults. */
module SyncTheorems {
  import opened Wrappers
  import opened Events
  import opened QueueStore
  import opened Sync
  import opened SyncProtocol
  import opened FilterSemantics

  /** Steps that end the handling of the current item. */
  predicate EndsItem(step: Step) {
    step.Skip? || step.MarkOwn? || step.ReportFailure? || step.FindSeen? || step.MarkItem? || step.PublishReceipt?
  }

  /** An item is left only when it is discharged. */
  lemma ItemDischarged(cfg: Config, s: State, step: Step)
    requires Inv(cfg, s) && Enabled(cfg, s, step) && EndsItem(step)
    ensures Done(cfg, Apply(cfg, s, step).published, s.phase.items[0])
  {
    if step.FindSeen? {
      SeenIsDone(cfg, s);
    }
    hide PayloadOf, Wrap, CacheOk, ProgressOk;
  }

  lemma ItemFrame(cfg: Config, s: State, step: Step)
    requires Enabled(cfg, s, step) && EndsItem(step)
    ensures AtItem(s) && s.published <= Apply(cfg, s, step).published
    ensures step.MarkOwn? || step.MarkItem? ==>
              s.phase.items[0].Timeline? && Apply(cfg, s, step).cache == Marked(s.cache, Current(s).id, step.fault)
    ensures !step.MarkOwn? && !step.MarkItem? ==> Apply(cfg, s, step).cache == s.cache
    ensures Apply(cfg, s, step).phase == NextItem(s).phase
  {
    hide Dispose, DisposePlain, IsNew;
  }

  lemma InvItem(cfg: Config, s: State, step: Step)
    requires Inv(cfg, s) && Enabled(cfg, s, step) && EndsItem(step)
    ensures Inv(cfg, Apply(cfg, s, step))
  {
    var s' := Apply(cfg, s, step);
    ItemFrame(cfg, s, step);
    RestHonest(cfg, s);
    ItemDischarged(cfg, s, step);
    hide Apply, Enabled, Done, CacheOk, StageOk, ProgressOk;
    ProgressStays(cfg, s, s'.published);
    CacheStays(cfg, s.cache, s.published, s'.published);
    if step.MarkOwn? || step.MarkItem? {
      MarkKeepsCache(cfg, s.cache, s'.published, Current(s), step.fault);
    }
    var mid := s.(published := s'.published);
    NextItemOk(cfg, mid);
    ProgressIgnores(cfg, NextItem(mid), s');
  }

  lemma ProgressIgnores(cfg: Config, s: State, s': State)
    requires ProgressOk(cfg, s) && StageOk(cfg, s) && s'.phase == s.phase && s'.published == s.published
    ensures ProgressOk(cfg, s') && StageOk(cfg, s')
  {
    hide Done, AllDone, HonestResponse, Rooms, RestOf;
  }

  lemma SeenIsDone(cfg: Config, s: State)
    requires Inv(cfg, s) && AtItem(s) && s.phase.items[0].Timeline? && Current(s).id in s.cache
    ensures Done(cfg, s.published, s.phase.items[0])
  {
    RestHonest(cfg, s);
  }

  lemma CheckedIsDue(cfg: Config, s: State)
    requires StageOk(cfg, s) && Handles(cfg, s)
    ensures Due(cfg, Current(s)) == Some(CurrentDisposition(cfg, s).env)
  {
  }

  lemma StageFrame(cfg: Config, s: State, step: Step)
    requires Enabled(cfg, s, step) && StageOk(cfg, s) && (step.OpenItem? || step.FindNew? || step.PublishItem?)
    ensures var s' := Apply(cfg, s, step);
            && s.phase.InBatch? && s'.phase.InBatch? && s'.phase == s.phase.(stage := s'.phase.stage)
            && s'.cache == s.cache && s.published <= s'.published && StageOk(cfg, s')
  {
    if step.FindNew? {
      CheckedIsDue(cfg, s);
    }
    hide DisposePlain, Dispose, Due;
  }

  lemma InvStage(cfg: Config, s: State, step: Step)
    requires Inv(cfg, s) && Enabled(cfg, s, step) && (step.OpenItem? || step.FindNew? || step.PublishItem?)
    ensures Inv(cfg, Apply(cfg, s, step))
  {
    var s' := Apply(cfg, s, step);
    StageFrame(cfg, s, step);
    hide Apply, Enabled, StageOk, CacheOk, ProgressOk;
    ProgressStays(cfg, s, s'.published);
    CacheStays(cfg, s.cache, s.published, s'.published);
    StageMoved(cfg, s, s');
  }

  lemma StageMoved(cfg: Config, s: State, s': State)
    requires ProgressOk(cfg, s.(published := s'.published)) && s.phase.InBatch?
    requires s'.phase.InBatch? && s'.phase == s.phase.(stage := s'.phase.stage)
    ensures ProgressOk(cfg, s')
  {
    hide Done, AllDone, HonestResponse, Rooms, RestOf;
  }

  lemma InvElse(cfg: Config, s: State, step: Step)
    requires Inv(cfg, s) && Enabled(cfg, s, step)
    requires step.Start? || step.Cancel? || step.Stop? || step.RequestFails? || step.Respond? || step.EnterRoom?
             || step.EndBatch? || step.PersistToken? || step.Crash?
    ensures Inv(cfg, Apply(cfg, s, step))
  {
    hide CacheOk, Done, HonestResponse, Rooms, DisposePlain, Dispose;
    var s' := Apply(cfg, s, step);
    match step
    case EnterRoom =>
      RestStart(cfg, s.published, Rooms(s.phase.resp)[s.phase.entered]);
      if s.phase.entered > 0 { RoomFinished(cfg, s); }
      hide AllDone, RestOf;
    case EndBatch =>
      if s.phase.entered > 0 { RoomFinished(cfg, s); }
      hide AllDone, RestOf;
    case _ => hide AllDone, RestOf;
  }

  lemma RoomFinished(cfg: Config, s: State)
    requires ProgressOk(cfg, s) && s.phase.InBatch? && s.phase.items == [] && s.phase.entered > 0
    ensures AllDone(cfg, s.published, Rooms(s.phase.resp)[s.phase.entered - 1])
  {
    hide Done;
    var room := Rooms(s.phase.resp)[s.phase.entered - 1];
    assert room[..|room|] == room;
  }

  lemma InvStep(cfg: Config, s: State, step: Step)
    requires Inv(cfg, s) && Enabled(cfg, s, step)
    ensures Inv(cfg, Apply(cfg, s, step))
  {
    hide Inv, Enabled, Apply;
    match step
    case OpenItem => InvStage(cfg, s, step);
    case FindNew(_) => InvStage(cfg, s, step);
    case PublishItem => InvStage(cfg, s, step);
    case Skip => InvItem(cfg, s, step);
    case MarkOwn(_) => InvItem(cfg, s, step);
    case ReportFailure => InvItem(cfg, s, step);
    case FindSeen => InvItem(cfg, s, step);
    case MarkItem(_) => InvItem(cfg, s, step);
    case PublishReceipt => InvItem(cfg, s, step);
    case _ => InvElse(cfg, s, step);
  }

  lemma {:induction false} InvAlways(cfg: Config, steps: seq<Step>, states: seq<State>, i: nat)
    requires IsRun(cfg, steps, states) && i < |states|
    ensures Inv(cfg, states[i])
  {
    hide Apply, Enabled;
    if i == 0 {
    } else {
      hide Inv;
      InvAlways(cfg, steps, states, i - 1);
      InvStep(cfg, states[i - 1], steps[i - 1]);
    }
  }

  lemma PublishedGrows(cfg: Config, s: State, step: Step)
    requires Enabled(cfg, s, step)
    ensures s.published <= Apply(cfg, s, step).published
  {
  }

  lemma {:induction false} PublishedGrowsAlways(cfg: Config, steps: seq<Step>, states: seq<State>, i: nat, j: nat)
    requires IsRun(cfg, steps, states) && i <= j < |states|
    ensures states[i].published <= states[j].published
    decreases j
  {
    hide Apply, Enabled;
    if i < j {
      PublishedGrowsAlways(cfg, steps, states, i, j - 1);
      PublishedGrows(cfg, states[j - 1], steps[j - 1]);
    }
  }

  /** Whenever a batch's token is about to be persisted, and ever after, every event of the
      batch has been published, or its decryption failure reported. */
  lemma BatchIsPublishedFirst(cfg: Config, steps: seq<Step>, states: seq<State>, i: nat, j: nat, fault: Fault)
    requires IsRun(cfg, steps, states) && i < |steps| && steps[i] == PersistToken(fault) && i <= j < |states|
    ensures states[i].phase.Advancing? && ResponseDone(cfg, states[j].published, states[i].phase.resp)
  {
    InvAlways(cfg, steps, states, i);
    PublishedGrowsAlways(cfg, steps, states, i, j);
    assert Enabled(cfg, states[i], steps[i]);
    var resp := states[i].phase.resp;
    hide IsRun, AllDone, Rooms, CacheOk, StageOk;
    RoomsDoneMeans(cfg, states[i].published, resp);
    hide ResponseDone, RoomsDone;
    ResponseDoneStays(cfg, states[i].published, states[j].published, resp);
  }

  // # The whole stream

  /** A server whose tokens are positions in one stream of items, and whose answer to a
      request contains every item from the position asked with up to the new token's. */
  ghost predicate Covers(stream: seq<Item>, pos: string -> nat, since: string, resp: Response) {
    && pos(since) <= pos(resp.nextBatch)
    && forall k :: pos(since) <= k < pos(resp.nextBatch) && k < |stream| ==> Contains(resp, stream[k])
  }

  ghost predicate FaithfulServer(stream: seq<Item>, pos: string -> nat, steps: seq<Step>, states: seq<State>)
    requires |states| == |steps| + 1
  {
    && pos("") == 0
    && forall i {:trigger steps[i]} :: 0 <= i < |steps| && steps[i].Respond? && states[i].phase.Polling? ==>
         Covers(stream, pos, states[i].phase.since, steps[i].resp)
  }

  ghost predicate DoneUpTo(cfg: Config, published: Bus, stream: seq<Item>, n: nat) {
    forall k :: 0 <= k < n && k < |stream| ==> Done(cfg, published, stream[k])
  }

  /** Both the token in the database and the one in memory only cover discharged items, and
      a batch being processed covers what lies between. */
  ghost predicate StreamOk(cfg: Config, stream: seq<Item>, pos: string -> nat, s: State) {
    && DoneUpTo(cfg, s.published, stream, pos(s.token))
    && match s.phase
       case Down => true
       case Polling(since) => DoneUpTo(cfg, s.published, stream, pos(since))
       case InBatch(since, resp, _, _, _) =>
         DoneUpTo(cfg, s.published, stream, pos(since)) && Covers(stream, pos, since, resp)
       case Advancing(since, resp) =>
         DoneUpTo(cfg, s.published, stream, pos(since)) && Covers(stream, pos, since, resp)
  }

  lemma DoneUpToStays(cfg: Config, published: Bus, published': Bus, stream: seq<Item>, n: nat)
    requires DoneUpTo(cfg, published, stream, n) && published <= published'
    ensures DoneUpTo(cfg, published', stream, n)
  {
    hide Done;
    forall k | 0 <= k < n && k < |stream| ensures Done(cfg, published', stream[k]) {
      DoneStays(cfg, published, published', stream[k]);
    }
  }

  /** A batch published in full carries the stream on to its token. */
  lemma BatchExtends(cfg: Config, published: Bus, stream: seq<Item>, pos: string -> nat, since: string, resp: Response)
    requires DoneUpTo(cfg, published, stream, pos(since)) && Covers(stream, pos, since, resp)
    requires ResponseDone(cfg, published, resp)
    ensures DoneUpTo(cfg, published, stream, pos(resp.nextBatch))
  {
    hide Done, Contains;
  }

  lemma StreamStep(cfg: Config, stream: seq<Item>, pos: string -> nat, s: State, step: Step)
    requires Inv(cfg, s) && StreamOk(cfg, stream, pos, s) && Enabled(cfg, s, step) && pos("") == 0
    requires step.Respond? ==> Covers(stream, pos, s.phase.since, step.resp)
    ensures StreamOk(cfg, stream, pos, Apply(cfg, s, step))
  {
    PublishedGrows(cfg, s, step);
    var s' := Apply(cfg, s, step);
    DoneUpToStays(cfg, s.published, s'.published, stream, pos(s.token));
    if !s.phase.Down? {
      DoneUpToStays(cfg, s.published, s'.published, stream, pos(s.phase.since));
    }
    if step.PersistToken? {
      RoomsDoneMeans(cfg, s.published, s.phase.resp);
      BatchExtends(cfg, s.published, stream, pos, s.phase.since, s.phase.resp);
    }
    NothingDue(cfg, s'.published, stream);
    StreamPhase(cfg, s, step);
    hide Covers, DoneUpTo, Rooms, Apply, Enabled, Inv;
  }

  /** How a step moves the token in the database and the one in memory. */
  lemma StreamPhase(cfg: Config, s: State, step: Step)
    requires Enabled(cfg, s, step)
    ensures var s' := Apply(cfg, s, step);
            && (step.PersistToken? ==>
                  && s.phase.Advancing? && s'.phase == Polling(s.phase.resp.nextBatch)
                  && (s'.token == s.token || s'.token == s.phase.resp.nextBatch))
            && (!step.PersistToken? ==>
                  && s'.token == s.token
                  && match s'.phase
                     case Down => true
                     case Polling(since) => (s.phase.Polling? && since == s.phase.since)
                                            || (s.phase.Down? && (since == "" || since == s.token))
                     case InBatch(since, resp, _, _, _) =>
                       || (s.phase.Polling? && since == s.phase.since && step == Respond(resp))
                       || (s.phase.InBatch? && since == s.phase.since && resp == s.phase.resp)
                     case Advancing(since, resp) =>
                       (s.phase.InBatch? || s.phase.Advancing?) && since == s.phase.since && resp == s.phase.resp)
  {
    hide Dispose, DisposePlain, Rooms, HonestResponse, Marked, ReceiptOf, FailureOf, IsNew, Bump, CurrentDisposition;
  }

  lemma NothingDue(cfg: Config, published: Bus, stream: seq<Item>)
    ensures DoneUpTo(cfg, published, stream, 0)
  {
  }

  lemma {:induction false} StreamAlways(cfg: Config, stream: seq<Item>, pos: string -> nat, steps: seq<Step>,
                                        states: seq<State>, i: nat)
    requires IsRun(cfg, steps, states) && FaithfulServer(stream, pos, steps, states) && i < |states|
    ensures StreamOk(cfg, stream, pos, states[i])
  {
    hide Apply, Covers;
    if i == 0 {
      NothingDue(cfg, states[0].published, stream);
    } else {
      StreamAlways(cfg, stream, pos, steps, states, i - 1);
      InvAlways(cfg, steps, states, i - 1);
      hide Inv, StreamOk;
      assert Enabled(cfg, states[i - 1], steps[i - 1]);
      StreamStep(cfg, stream, pos, states[i - 1], steps[i - 1]);
    }
  }

  /** No loss: across any faults, cancellations and crashes, every item of the stream before
      the persisted token has been published, or its decryption failure reported. */
  lemma NoLoss(cfg: Config, stream: seq<Item>, pos: string -> nat, steps: seq<Step>, states: seq<State>, i: nat, k: nat)
    requires IsRun(cfg, steps, states) && FaithfulServer(stream, pos, steps, states)
    requires i < |states| && k < |stream| && k < pos(states[i].token)
    ensures Done(cfg, states[i].published, stream[k])
  {
    StreamAlways(cfg, stream, pos, steps, states, i);
  }

  // # What is published

  /** Exactly which events are published: readable ones of a handled kind, of other users
      unless they are membership changes, and no edit without its new content. */
  lemma PublishedExactlyWhen(cfg: Config, e: Event)
    ensures Due(cfg, e).Some? <==>
              && (e.encrypted ==> cfg.hasDecrypter && e.sender != cfg.userID)
              && !e.body.Unhandled?
              && (e.body.Member? ==> e.body.stateKey.Some?)
              && (!e.body.Member? ==> e.sender != cfg.userID)
              && (e.body.Text? && e.body.relation.Replaces? ==> e.body.newBody.Some?)
  {
  }

  /** Exactly which events are recorded in the cache without being published: this user's own
      messages, reactions and redactions, and own encrypted events if they could be read at
      all; and which events are decrypted first. */
  lemma MarkedOnlyWhen(cfg: Config, e: Event)
    ensures Dispose(cfg, e).MarkOnly? <==>
              && e.sender == cfg.userID
              && (if e.encrypted then cfg.hasDecrypter else e.body.Text? || e.body.React? || e.body.Redact?)
    ensures Dispose(cfg, e).Decrypt? <==> e.encrypted && cfg.hasDecrypter && e.sender != cfg.userID
    ensures !e.encrypted ==> Dispose(cfg, e) == DisposePlain(cfg, e)
    ensures DisposePlain(cfg, e).MarkOnly? <==>
              e.sender == cfg.userID && (e.body.Text? || e.body.React? || e.body.Redact?)
    ensures Dispose(cfg, e).Decrypt? && DisposePlain(cfg, e).Check? ==> Due(cfg, e) == Some(DisposePlain(cfg, e).env)
  {
    hide Wrap;
  }

  /** What dispatching one event does: a failed decryption is reported and not recorded, so that
      it is tried again; an event that is due is published and recorded exactly when it has no
      id, its lookup fails, or its id is not recorded yet; own events are recorded; and nothing
      else happens. */
  lemma DispatchedMeans(cfg: Config, cache: set<string>, published: Bus, e: Event, luck: Luck)
    ensures var (c, p) := Dispatched(cfg, cache, published, e, luck);
            var recorded := if e.id == "" || luck.insert == BeforeWrite then cache else cache + {e.id};
            var unreadable := e.encrypted && cfg.hasDecrypter && e.sender != cfg.userID && !luck.decrypts;
            if unreadable then c == cache && p == published + multiset{FailureOf(cfg, e)}
            else if Due(cfg, e).Some? && (e.id == "" || luck.lookupFails || e.id !in cache) then
              c == recorded && p == published + multiset{Due(cfg, e).value}
            else if Due(cfg, e).None? && (Dispose(cfg, e).MarkOnly?
                                          || (Dispose(cfg, e).Decrypt? && DisposePlain(cfg, e).MarkOnly?)) then
              c == recorded && p == published
            else c == cache && p == published
  {
    PlainNeedsNoDecryption(cfg, e);
    hide DisposePlain;
  }

  /** A receipt is published, and a decryption failure reported, under its own type, account
      and room; the receipt with its event, user, kind and moment. */
  lemma ReceiptsAndFailuresAsThemselves(cfg: Config, r: ReadReceipt, e: Event)
    ensures var env := ReceiptOf(cfg, r);
            && env.eventType == "inbound.receipt" && env.accountID == cfg.accountID && env.roomID == r.roomID
            && env.payload.Receipt? && env.payload.eventID == r.eventID && env.payload.userID == r.userID
            && env.payload.receiptType == r.receiptType && env.payload.timestamp == r.timestamp * 1_000_000
    ensures var env := FailureOf(cfg, e);
            && env.eventType == "crypto.encryption_failure" && env.accountID == cfg.accountID
            && env.roomID == e.roomID && env.payload == Internal(e.id)
  {
  }

  /** Six types are subscribed to, and everything a batch publishes is of one of them, but for
      decryption failures. */
  lemma SubscribedTypes(cfg: Config, r: ReadReceipt, e: Event, t: EventType)
    ensures t in INBOUND_TYPES <==>
            t == "inbound.message" || t == "inbound.reaction" || t == "inbound.edit" || t == "inbound.redaction"
            || t == "inbound.membership" || t == "inbound.receipt"
    ensures ReceiptOf(cfg, r).eventType in INBOUND_TYPES && FailureOf(cfg, e).eventType !in INBOUND_TYPES
  {
    assert INBOUND_TYPES[0] == "inbound.message" && INBOUND_TYPES[1] == "inbound.reaction";
    assert INBOUND_TYPES[2] == "inbound.edit" && INBOUND_TYPES[3] == "inbound.redaction";
    assert INBOUND_TYPES[4] == "inbound.membership" && INBOUND_TYPES[5] == "inbound.receipt";
  }

  /** The type under which each kind of payload is published, and the file a message carries. */
  lemma PublishedUnderItsType(cfg: Config, e: Event)
    requires Due(cfg, e).Some?
    ensures var env, p, b := Due(cfg, e).value, Due(cfg, e).value.payload, e.body;
            && (p.Message? ==> env.eventType == "inbound.message") && (p.Edit? ==> env.eventType == "inbound.edit")
            && (p.Reaction? ==> env.eventType == "inbound.reaction")
            && (p.Redaction? ==> env.eventType == "inbound.redaction")
            && (p.Membership? ==> env.eventType == "inbound.membership")
            && p.timestamp == e.timestamp * 1_000_000
            && (p.Message? <==> b.Text? && !b.relation.Replaces?) && (p.Reaction? <==> b.React?)
            && (p.Redaction? <==> b.Redact?) && (p.Membership? <==> b.Member?)
            && (p.Message? && p.attachment.Some? ==>
                  && p.attachment.value.url == (if b.encryptedFile then "" else b.url)
                  && p.attachment.value.mimeType == b.mimeType && p.attachment.value.filename == b.filename)
  {
  }

  /** The envelope names the account, room, event, moment and person of the event, its type
      is one the correlation manager subscribes to, and what the filter language reads from
      it is what the event says. */
  lemma PublishedAsItself(cfg: Config, e: Event)
    requires Due(cfg, e).Some?
    ensures var env := Due(cfg, e).value;
            && env.accountID == cfg.accountID && env.roomID == e.roomID && env.eventType in INBOUND_TYPES
            && Inbound(env) && !env.payload.Receipt? && env.payload.eventID == e.id
            && UnixMilli(env.payload.timestamp) == e.timestamp
            && SenderOf(env.payload) == if e.body.Member? then e.body.stateKey else Some(e.sender)
    ensures var p, b := Due(cfg, e).value.payload, e.body;
            && (p.Edit? <==> b.Text? && b.relation.Replaces?)
            && BodyOf(p) == (if b.Text? then if b.relation.Replaces? then b.newBody else Some(b.text) else None)
            && ReplyTargetOf(p) == (if b.Text? && b.relation.RelatesTo? then Some(b.relation.replyTo)
                                    else if b.Text? && b.relation.Unrelated? then Some("") else None)
            && ReactionKeyOf(p) == (if b.React? then Some(b.key) else None)
            && TargetOf(p) == (if b.React? then Some(b.target)
                               else if b.Redact? then Some(if b.topLevel != "" then b.topLevel else b.inContent)
                               else if p.Edit? then Some(b.relation.target) else None)
            && FilterSemantics.AttachmentOf(p) ==
                 (if p.Message? then Some(b.msgType in ["m.file", "m.image", "m.audio", "m.video"]) else None)
            && (p.Redaction? ==> p.reason == b.reason) && (p.Membership? ==> p.membership == b.membership)
  {
    assert INBOUND_TYPES == ["inbound.message", "inbound.reaction", "inbound.edit"] + INBOUND_TYPES[3..];
    assert INBOUND_TYPES[3] == "inbound.redaction" && INBOUND_TYPES[4] == "inbound.membership";
  }

  // # Bounded duplication

  function Faults(s: State, id: string): nat {
    Count(s.failedLookups, id) + Count(s.failedInserts, id) + Count(s.crashes, id)
  }

  /** The item being handled is the event with this id, at that stage. */
  predicate Busy(s: State, id: string) {
    AtItem(s) && s.phase.items[0].Timeline? && Current(s).id == id
  }

  /** Each publish but one is paid for by a fault; the last one is not yet paid for while
      the event is cached or about to be. */
  predicate Paid(cfg: Config, s: State, id: string) {
    var due := Due(cfg, cfg.content(id));
    due.Some? ==>
      && s.published[due.value] <=
           Faults(s, id) + (if id in s.cache || (Busy(s, id) && s.phase.stage.Marking?) then 1 else 0)
      && (Busy(s, id) && s.phase.stage.Publishing? ==> s.published[due.value] <= Faults(s, id))
  }

  /** Which event an inbound envelope speaks of; receipts and reports speak of none. */
  lemma DueNamesEvent(cfg: Config, e: Event)
    ensures Due(cfg, e).Some? ==>
              var p := Due(cfg, e).value.payload;
              !p.Internal? && !p.Receipt? && p.eventID == e.id
  {
  }

  lemma OthersUnpublished(cfg: Config, s: State, step: Step, id: string)
    requires Inv(cfg, s) && Enabled(cfg, s, step) && id != "" && Due(cfg, cfg.content(id)).Some?
    requires cfg.content(id).id == id
    ensures !(step.PublishItem? && Current(s).id == id) ==>
              var env := Due(cfg, cfg.content(id)).value;
              Apply(cfg, s, step).published[env] == s.published[env]
    ensures step.PublishItem? && Current(s).id == id ==>
              var env := Due(cfg, cfg.content(id)).value;
              Apply(cfg, s, step).published[env] == s.published[env] + 1
  {
    DueNamesEvent(cfg, cfg.content(id));
    if step.PublishItem? {
      RestHonest(cfg, s);
      DueNamesEvent(cfg, Current(s));
    }
    hide Due, CacheOk, ProgressOk, Dispose, DisposePlain;
  }

  /** Steps that neither publish an event nor look one up: no fault is forgotten, nothing
      leaves the cache, and no event is left published but unmarked. */
  lemma PaidElse(cfg: Config, s: State, s': State, id: string)
    requires Paid(cfg, s, id) && Due(cfg, cfg.content(id)).Some?
    requires s'.published[Due(cfg, cfg.content(id)).value] == s.published[Due(cfg, cfg.content(id)).value]
    requires Faults(s, id) <= Faults(s', id) && s.cache <= s'.cache
    requires !(Busy(s', id) && s'.phase.stage.Publishing?) || s'.phase == s.phase
    requires (Busy(s, id) && s.phase.stage.Marking?) ==>
               s'.phase == s.phase || id in s'.cache || Faults(s', id) > Faults(s, id)
    ensures Paid(cfg, s', id)
  {
    hide Due, Faults;
  }

  lemma ElseFrame(cfg: Config, s: State, step: Step, id: string)
    requires Enabled(cfg, s, step) && id != "" && !step.PublishItem? && !step.FindNew?
    ensures var s' := Apply(cfg, s, step);
            && Faults(s, id) <= Faults(s', id) && s.cache <= s'.cache
            && (!(Busy(s', id) && s'.phase.stage.Publishing?) || s'.phase == s.phase)
            && (Busy(s, id) && s.phase.stage.Marking? ==>
                  s'.phase == s.phase || id in s'.cache || Faults(s', id) > Faults(s, id))
  {
    hide Dispose, DisposePlain, Rooms;
  }

  lemma PublishFrame(cfg: Config, s: State, id: string)
    requires Enabled(cfg, s, PublishItem)
    ensures var s' := Apply(cfg, s, PublishItem);
            && Faults(s', id) == Faults(s, id) && s'.cache == s.cache && Busy(s', id) == Busy(s, id)
            && s.phase.stage.Publishing? && AtItem(s') && s'.phase.stage.Marking?
  {
  }

  lemma FindFrame(cfg: Config, s: State, lookupFails: bool, id: string)
    requires Enabled(cfg, s, FindNew(lookupFails))
    ensures var s' := Apply(cfg, s, FindNew(lookupFails));
            && s'.cache == s.cache && Busy(s', id) == Busy(s, id)
            && Faults(s', id) == Faults(s, id) + (if lookupFails && Busy(s, id) then 1 else 0)
            && (Busy(s, id) && id != "" && !lookupFails ==> id !in s.cache)
            && AtItem(s) && !s.phase.stage.Marking? && AtItem(s') && s'.phase.stage.Publishing?
  {
    hide Dispose, DisposePlain;
  }

  /** Publishing an event uses up what the lookup left room for; a lookup leaves room
      either because the event is not cached or because it failed. */
  lemma PaidHandling(cfg: Config, s: State, step: Step, id: string)
    requires Inv(cfg, s) && Enabled(cfg, s, step) && id != "" && cfg.content(id).id == id && Paid(cfg, s, id)
    requires step.PublishItem? || step.FindNew?
    ensures Paid(cfg, Apply(cfg, s, step), id)
  {
    if Due(cfg, cfg.content(id)).Some? {
      OthersUnpublished(cfg, s, step, id);
    }
    if step.PublishItem? {
      PublishFrame(cfg, s, id);
    } else {
      FindFrame(cfg, s, step.lookupFails, id);
    }
    hide Due, Inv, Faults, Busy, Apply, Enabled;
  }

  lemma PaidStep(cfg: Config, s: State, step: Step, id: string)
    requires Inv(cfg, s) && Enabled(cfg, s, step) && id != "" && cfg.content(id).id == id && Paid(cfg, s, id)
    ensures Paid(cfg, Apply(cfg, s, step), id)
  {
    if Due(cfg, cfg.content(id)).None? {
      return;
    }
    hide Due, Inv, Apply, Enabled, Paid, Faults, Busy;
    if step.PublishItem? || step.FindNew? {
      PaidHandling(cfg, s, step, id);
    } else {
      OthersUnpublished(cfg, s, step, id);
      ElseFrame(cfg, s, step, id);
      PaidElse(cfg, s, Apply(cfg, s, step), id);
    }
  }

  lemma {:induction false} PaidAlways(cfg: Config, steps: seq<Step>, states: seq<State>, i: nat, id: string)
    requires IsRun(cfg, steps, states) && i < |states| && id != "" && cfg.content(id).id == id
    ensures Paid(cfg, states[i], id)
  {
    hide Apply, Enabled, Due;
    if i > 0 {
      PaidAlways(cfg, steps, states, i - 1, id);
      InvAlways(cfg, steps, states, i - 1);
      hide Paid, Inv;
      PaidStep(cfg, states[i - 1], steps[i - 1], id);
    }
  }

  /** Bounded duplication: an event with an id is published at most once more often than its
      cache lookups failed, its cache inserts failed, and the process crashed between
      publishing and marking it. */
  lemma BoundedDuplication(cfg: Config, steps: seq<Step>, states: seq<State>, i: nat, id: string)
    requires IsRun(cfg, steps, states) && i < |states| && id != "" && cfg.content(id).id == id
    requires Due(cfg, cfg.content(id)).Some?
    ensures states[i].published[Due(cfg, cfg.content(id)).value] <=
            1 + Count(states[i].failedLookups, id) + Count(states[i].failedInserts, id) + Count(states[i].crashes, id)
  {
    PaidAlways(cfg, steps, states, i, id);
    hide IsRun, Due;
  }

  // # The sequential code follows the protocol

  ghost predicate Path(cfg: Config, s: State, steps: seq<Step>, s': State)
    decreases |steps|
  {
    if steps == [] then s' == s
    else Enabled(cfg, s, steps[0]) && Path(cfg, Apply(cfg, s, steps[0]), steps[1..], s')
  }

  lemma PathCons(cfg: Config, s: State, step: Step, steps: seq<Step>, s': State)
    requires Enabled(cfg, s, step) && Path(cfg, Apply(cfg, s, step), steps, s')
    ensures Path(cfg, s, [step] + steps, s')
  {
    assert ([step] + steps)[1..] == steps;
  }

  lemma EmptyPath(cfg: Config, s: State)
    ensures Path(cfg, s, [], s)
  {
  }

  /** Check, publish and mark. */
  lemma NewPath(cfg: Config, s: State, luck: Luck) returns (steps: seq<Step>, s': State)
    requires Handles(cfg, s) && IsNew(s.cache, Current(s).id, luck.lookupFails)
    ensures Path(cfg, s, steps, s') && s'.phase == NextItem(s).phase
    ensures s'.token == s.token && s'.cancelled == s.cancelled
    ensures s'.cache == Marked(s.cache, Current(s).id, luck.insert)
    ensures s'.published == s.published + multiset{CurrentDisposition(cfg, s).env}
  {
    hide Dispose, DisposePlain, Path, Marked;
    var find, mark := FindNew(luck.lookupFails && Current(s).id != ""), MarkItem(luck.insert);
    var found := Apply(cfg, s, find);
    var published := Apply(cfg, found, PublishItem);
    s' := Apply(cfg, published, mark);
    hide Apply;
    EmptyPath(cfg, s');
    PathCons(cfg, published, mark, [], s');
    PathCons(cfg, found, PublishItem, [mark] + [], s');
    PathCons(cfg, s, find, [PublishItem] + ([mark] + []), s');
    steps := [find] + ([PublishItem] + ([mark] + []));
  }

  lemma PlainNeedsNoDecryption(cfg: Config, e: Event)
    ensures !DisposePlain(cfg, e).Decrypt?
  {
  }

  /** The steps the typed handlers take for a looked-at event. */
  lemma HandlerPath(cfg: Config, s: State, luck: Luck) returns (steps: seq<Step>, s': State)
    requires (AtEvent(s, Fresh) || AtEvent(s, Opened)) && !CurrentDisposition(cfg, s).Decrypt?
    ensures Path(cfg, s, steps, s') && s'.phase == NextItem(s).phase
    ensures s'.token == s.token && s'.cancelled == s.cancelled
    ensures var e := Current(s);
            match CurrentDisposition(cfg, s)
            case Check(env) =>
              if IsNew(s.cache, e.id, luck.lookupFails)
              then s'.cache == Marked(s.cache, e.id, luck.insert) && s'.published == s.published + multiset{env}
              else s'.cache == s.cache && s'.published == s.published
            case MarkOnly => s'.cache == Marked(s.cache, e.id, luck.insert) && s'.published == s.published
            case _ => s'.cache == s.cache && s'.published == s.published
  {
    var e := Current(s);
    hide Dispose, DisposePlain, Path;
    forall u ensures Path(cfg, u, [], u) {
      EmptyPath(cfg, u);
    }
    match CurrentDisposition(cfg, s)
    case Check(env) =>
      if IsNew(s.cache, e.id, luck.lookupFails) {
        steps, s' := NewPath(cfg, s, luck);
      } else {
        s' := Apply(cfg, s, FindSeen);
        PathCons(cfg, s, FindSeen, [], s');
        steps := [FindSeen] + [];
      }
    case MarkOnly =>
      s' := Apply(cfg, s, MarkOwn(luck.insert));
      PathCons(cfg, s, MarkOwn(luck.insert), [], s');
      steps := [MarkOwn(luck.insert)] + [];
    case Ignore =>
      s' := Apply(cfg, s, Skip);
      PathCons(cfg, s, Skip, [], s');
      steps := [Skip] + [];
  }

  /** What DispatchEvent does to the cache and the bus is a path of the protocol through the
      current item. */
  lemma DispatchFollowsProtocol(cfg: Config, s: State, luck: Luck) returns (steps: seq<Step>, s': State)
    requires AtEvent(s, Fresh)
    ensures Path(cfg, s, steps, s') && s'.phase == NextItem(s).phase
    ensures s'.token == s.token && s'.cancelled == s.cancelled
    ensures (s'.cache, s'.published) == Dispatched(cfg, s.cache, s.published, Current(s), luck)
  {
    PlainNeedsNoDecryption(cfg, Current(s));
    hide Path, DisposePlain;
    if Dispose(cfg, Current(s)).Decrypt? {
      if luck.decrypts {
        var uncovered := Apply(cfg, s, OpenItem);
        steps, s' := HandlerPath(cfg, uncovered, luck);
        PathCons(cfg, s, OpenItem, steps, s');
        steps := [OpenItem] + steps;
      } else {
        s' := Apply(cfg, s, ReportFailure);
        EmptyPath(cfg, s');
        PathCons(cfg, s, ReportFailure, [], s');
        steps := [ReportFailure] + [];
      }
    } else {
      steps, s' := HandlerPath(cfg, s, luck);
    }
  }
}
