/**
 * `DifyService`: one incoming WhatsApp message is gated against the user's session,
 * possibly handed to the Dify backend, and the backend's reply is delivered back.
 *
 * The observable state is the session store, the next record id, the messages sent to
 * WhatsApp and the requests posted to the backend. Each method of the class is proved
 * to leave exactly the state that a pure function of the old state describes; the
 * properties of the service are proved about those functions.
 */
module Service {
  import opened Wrappers
  import opened Transcoder
  import opened Dispatch
  import opened Stream
  import opened Sessions

  /** The bot record: its id, its mode and the backend base url. */
  datatype Bot = Bot(id: string, mode: BotMode, apiUrl: string)

  /** What the backend answers a request with, as the caller observes it: an error
      (network, status, or a body without the expected field), a blocking body, or the
      chunks of a stream. */
  datatype Reply =
    | Failed
    | Answered(text: string, conversationId: Option<string>)
    | Streamed(chunks: seq<string>)

  /** The text to deliver and the conversation id the reply carries. */
  datatype BotAnswer = BotAnswer(text: string, conversationId: Option<string>)

  /** The whole observable state. */
  datatype World = World(
    sessions: map<nat, Session>,
    nextId: nat,
    sent: seq<Action>,
    posted: seq<Request>)

  /** How the mode reads the reply: the agent folds its stream, the other modes read a
      blocking body; a reply of the other shape is an error. */
  function ReadReply(mode: BotMode, reply: Reply, parse: string -> Option<StreamEvent>): (a: Option<BotAnswer>)
    ensures reply.Failed? ==> a.None?
    ensures mode == Agent ==> (a.Some? <==> reply.Streamed?)
    ensures mode != Agent ==> (a.Some? <==> reply.Answered?)
    ensures mode == Agent && a.Some? ==>
      reply.Streamed? && a.value == BotAnswer(StreamAnswer(reply.chunks, parse), StreamConversationId(reply.chunks, parse))
    ensures mode != Agent && a.Some? ==> reply == Answered(a.value.text, a.value.conversationId)
  {
    match reply
    case Failed => None
    case Answered(text, id) => if mode != Agent then Some(BotAnswer(text, id)) else None
    case Streamed(chunks) =>
      if mode == Agent then Some(BotAnswer(StreamAnswer(chunks, parse), StreamConversationId(chunks, parse))) else None
  }

  /** The messages a reply becomes, for one user. */
  function Delivery(message: string, remoteJid: string, delayMessage: int): seq<Action> {
    Delivered(Transcode(message), Number(remoteJid), Delay(delayMessage))
  }

  /** The fallback message of an empty content. */
  function FallbackMessage(text: string, remoteJid: string, delayMessage: int): Action {
    SendText(Number(remoteJid), Delay(delayMessage), text)
  }

  /** The store after the update of the record `id`, or unchanged when it is missing
      (the update throws and what follows it does not happen). */
  function UpdateOr(w: World, id: nat, patch: Patch, now: int): World {
    match UpdateRecord(w.sessions, id, patch, now)
    case None => w
    case Some(records) => w.(sessions := records)
  }

  /** The patch written after a successful reply. */
  function AwaitPatch(mode: BotMode, sessionId: string, remoteJid: string, replyId: Option<string>): Patch {
    Patch(Some(Opened), Some(true), SessionIdWrite(mode, sessionId, remoteJid, replyId))
  }

  const ClosePatch := Patch(Some(Closed), None, None)
  const RefreshPatch := Patch(Some(Opened), Some(false), None)

  /** `sendMessageToBot`: post the request, deliver the reply, record that the bot now
      waits for the user. Any exception ends the call with what was done so far. */
  function SendToBot(w: World, session: Session, settings: Settings, bot: Bot, remoteJid: string,
                     pushName: string, content: string, reply: Reply, parse: string -> Option<StreamEvent>,
                     now: int): World
  {
    match BuildRequest(bot.mode, bot.apiUrl, session.sessionId, remoteJid, pushName, content)
    case None => w
    case Some(request) =>
      var w1 := w.(posted := w.posted + [request]);
      match ReadReply(bot.mode, reply, parse)
      case None => w1
      case Some(answer) =>
        var w2 := w1.(sent := w1.sent + Delivery(answer.text, remoteJid, settings.delayMessage));
        UpdateOr(w2, session.id, AwaitPatch(bot.mode, session.sessionId, remoteJid, answer.conversationId), now)
  }

  /** `initNewSession`: create a record for the pair and send the message with it. */
  function StartSession(w: World, instanceId: string, settings: Settings, bot: Bot, remoteJid: string,
                        pushName: string, content: string, reply: Reply, parse: string -> Option<StreamEvent>,
                        now: int): World
  {
    var session := NewSession(w.nextId, instanceId, bot.id, remoteJid, now);
    var w1 := w.(sessions := w.sessions[w.nextId := session], nextId := w.nextId + 1);
    SendToBot(w1, session, settings, bot, remoteJid, pushName, content, reply, parse, now)
  }

  /** `processDify` for one message. */
  function ProcessTurn(w: World, session: Option<Session>, instanceId: string, settings: Settings, bot: Bot,
                       remoteJid: string, pushName: string, content: string, reply: Reply,
                       parse: string -> Option<StreamEvent>, now: int): World
  {
    match Decide(session, settings, content, now)
    case Ignore => w
    case Start => StartSession(w, instanceId, settings, bot, remoteJid, pushName, content, reply, parse, now)
    case Restart(keepOpen) =>
      var id := session.value.id;
      if keepOpen then
        if id in w.sessions then
          StartSession(UpdateOr(w, id, ClosePatch, now), instanceId, settings, bot, remoteJid, pushName, content, reply, parse, now)
        else w
      else
        StartSession(w.(sessions := DeleteRecords(w.sessions, bot.id, remoteJid)), instanceId, settings, bot,
                     remoteJid, pushName, content, reply, parse, now)
    case _ =>
      var s := session.value;
      if s.id !in w.sessions then w
      else
        var w1 := UpdateOr(w, s.id, RefreshPatch, now);
        AfterRefresh(w1, s, settings, bot, remoteJid, pushName, content, reply, parse, now)
  }

  /** What follows the refresh of an open, unexpired session. */
  function AfterRefresh(w: World, s: Session, settings: Settings, bot: Bot, remoteJid: string, pushName: string,
                        content: string, reply: Reply, parse: string -> Option<StreamEvent>, now: int): World
  {
    if content == [] then
      if settings.unknownMessage != [] then
        w.(sent := w.sent + [FallbackMessage(settings.unknownMessage, remoteJid, settings.delayMessage)])
      else w
    else if IsFinish(content, settings.keywordFinish) then
      if settings.keepOpen then UpdateOr(w, s.id, ClosePatch, now)
      else w.(sessions := DeleteRecords(w.sessions, bot.id, remoteJid))
    else SendToBot(w, s, settings, bot, remoteJid, pushName, content, reply, parse, now)
  }

  /** Delivering one more part sends what that part becomes. */
  lemma DeliveredStep(parts: seq<Part>, i: nat, number: string, delay: int)
    requires i < |parts|
    ensures Delivered(parts[..i + 1], number, delay) == Delivered(parts[..i], number, delay) + DeliverPart(parts[i], number, delay)
  {
    assert parts[..i + 1] == parts[..i] + [parts[i]];
    DeliveredAppend(parts[..i], [parts[i]], number, delay);
    assert Delivered([parts[i]], number, delay) == DeliverPart(parts[i], number, delay) + Delivered([], number, delay);
  }

  /** The service: the session store it writes through, and the two channels it
      writes to. `parse` stands for `JSON.parse` of one stream chunk. */
  class DifyService {
    var sessions: map<nat, Session>
    var nextId: nat
    var sent: seq<Action>
    var posted: seq<Request>
    const parse: string -> Option<StreamEvent>

    function State(): World
      reads this
    {
      World(sessions, nextId, sent, posted)
    }

    ghost predicate Valid()
      reads this
    {
      WellFormed(sessions, nextId)
    }

    constructor(parse: string -> Option<StreamEvent>)
      ensures State() == World(map[], 0, [], []) && Valid()
      ensures this.parse == parse
    {
      sessions := map[];
      nextId := 0;
      sent := [];
      posted := [];
      this.parse := parse;
    }

    /** `createNewSession`: a fresh, open record with the sentinel `sessionId`. */
    method CreateNewSession(instanceId: string, botId: string, remoteJid: string, now: int) returns (session: Session)
      modifies this
      requires Valid()
      ensures Valid() && old(nextId) !in old(sessions)
      ensures session == NewSession(old(nextId), instanceId, botId, remoteJid, now)
      ensures State() == old(State()).(sessions := old(sessions)[old(nextId) := session], nextId := old(nextId) + 1)
    {
      StoreKeepsWellFormed(sessions, nextId, 0, RefreshPatch, now, botId, remoteJid, instanceId);
      session := NewSession(nextId, instanceId, botId, remoteJid, now);
      sessions := sessions[nextId := session];
      nextId := nextId + 1;
    }

    /** `integrationSession.update`; `false` when it throws for a missing record. */
    method UpdateSession(id: nat, patch: Patch, now: int) returns (ok: bool)
      modifies this
      requires Valid()
      ensures Valid()
      ensures ok <==> id in old(sessions)
      ensures State() == UpdateOr(old(State()), id, patch, now)
    {
      StoreKeepsWellFormed(sessions, nextId, id, patch, now, "", "", "");
      ok := id in sessions;
      if ok {
        sessions := sessions[id := Apply(sessions[id], patch, now)];
      }
    }

    /** `integrationSession.deleteMany` for one bot and one user. */
    method DeleteSessions(botId: string, remoteJid: string)
      modifies this
      requires Valid()
      ensures Valid()
      ensures State() == old(State()).(sessions := DeleteRecords(old(sessions), botId, remoteJid))
    {
      StoreKeepsWellFormed(sessions, nextId, 0, RefreshPatch, 0, botId, remoteJid, "");
      sessions := DeleteRecords(sessions, botId, remoteJid);
    }

    /** `sendMessageWhatsApp`: cut the reply into parts, then send every part that has
        something to send, in order. */
    method SendMessageWhatsApp(remoteJid: string, message: string, delayMessage: int)
      modifies this
      ensures State() == old(State()).(sent := old(sent) + Delivery(message, remoteJid, delayMessage))
    {
      var parts := ParseReply(message);
      DeliverParts(parts, Number(remoteJid), Delay(delayMessage));
    }

    /** The delivery loop of `sendMessageWhatsApp`: each part in order, skipping empty
        texts and media without a url. */
    method DeliverParts(parts: seq<Part>, number: string, delay: int)
      modifies this
      ensures State() == old(State()).(sent := old(sent) + Delivered(parts, number, delay))
    {
      for i := 0 to |parts|
        invariant sessions == old(sessions) && nextId == old(nextId) && posted == old(posted)
        invariant sent == old(sent) + Delivered(parts[..i], number, delay)
      {
        var item := parts[i];
        ghost var before := sent;
        match item {
          case Text(text) =>
            if text != "" {
              sent := sent + [SendText(number, delay, text)];
            }
          case Media(caption, url) =>
            if url != "" {
              sent := sent + [SendMedia(number, delay, url, caption)];
            }
        }
        assert sent == before + DeliverPart(item, number, delay);
        DeliveredStep(parts, i, number, delay);
      }
      assert parts[..|parts|] == parts;
    }

    /** `sendMessageToBot`. */
    method SendMessageToBot(session: Session, settings: Settings, bot: Bot, remoteJid: string, pushName: string,
                            content: string, reply: Reply, now: int)
      modifies this
      requires Valid()
      ensures Valid()
      ensures State() == SendToBot(old(State()), session, settings, bot, remoteJid, pushName, content, reply, parse, now)
    {
      var request := BuildRequest(bot.mode, bot.apiUrl, session.sessionId, remoteJid, pushName, content);
      if request.None? {
        return;
      }
      posted := posted + [request.value];
      var message: string;
      var conversationId: Option<string>;
      match reply {
        case Failed =>
          return;
        case Answered(text, id) =>
          if bot.mode == Agent {
            return;
          }
          message, conversationId := text, id;
        case Streamed(chunks) =>
          if bot.mode != Agent {
            return;
          }
          message, conversationId := AggregateAgentStream(chunks, parse);
      }
      SendMessageWhatsApp(remoteJid, message, settings.delayMessage);
      var _ := UpdateSession(session.id, AwaitPatch(bot.mode, session.sessionId, remoteJid, conversationId), now);
    }

    /** `initNewSession`. */
    method InitNewSession(instanceId: string, settings: Settings, bot: Bot, remoteJid: string, pushName: string,
                          content: string, reply: Reply, now: int)
      modifies this
      requires Valid()
      ensures Valid()
      ensures State() == StartSession(old(State()), instanceId, settings, bot, remoteJid, pushName, content, reply, parse, now)
    {
      var session := CreateNewSession(instanceId, bot.id, remoteJid, now);
      SendMessageToBot(session, settings, bot, remoteJid, pushName, content, reply, now);
    }

    /** `processDify`. */
    method ProcessDify(session: Option<Session>, instanceId: string, settings: Settings, bot: Bot, remoteJid: string,
                       pushName: string, content: string, reply: Reply, now: int)
      modifies this
      requires Valid()
      ensures Valid()
      ensures State() == ProcessTurn(old(State()), session, instanceId, settings, bot, remoteJid, pushName, content, reply, parse, now)
    {
      ghost var decision := Decide(session, settings, content, now);
      if session.Some? && session.value.status != Opened {
        assert decision == Ignore;
        return;
      }
      if session.Some? && Expired(settings.expire, session.value.updatedAt, now) {
        if settings.keepOpen {
          var ok := UpdateSession(session.value.id, ClosePatch, now);
          if !ok {
            return;
          }
        } else {
          DeleteSessions(bot.id, remoteJid);
        }
        assert decision == Restart(settings.keepOpen);
        InitNewSession(instanceId, settings, bot, remoteJid, pushName, content, reply, now);
        return;
      }
      if session.None? {
        assert decision == Start;
        InitNewSession(instanceId, settings, bot, remoteJid, pushName, content, reply, now);
        return;
      }
      var s := session.value;
      assert decision !in {Ignore, Start, Restart(settings.keepOpen)};
      var ok := UpdateSession(s.id, RefreshPatch, now);
      if ok {
        HandleOpenSession(s, settings, bot, remoteJid, pushName, content, reply, now);
      }
    }

    /** The rest of `processDify` once an open, unexpired session has been refreshed:
        the fallback for an empty message, the finish keyword, or the dispatch. */
    method HandleOpenSession(s: Session, settings: Settings, bot: Bot, remoteJid: string, pushName: string,
                             content: string, reply: Reply, now: int)
      modifies this
      requires Valid()
      ensures Valid()
      ensures State() == AfterRefresh(old(State()), s, settings, bot, remoteJid, pushName, content, reply, parse, now)
    {
      if content == "" {
        if settings.unknownMessage != "" {
          sent := sent + [FallbackMessage(settings.unknownMessage, remoteJid, settings.delayMessage)];
        }
        return;
      }
      if IsFinish(content, settings.keywordFinish) {
        if settings.keepOpen {
          var _ := UpdateSession(s.id, ClosePatch, now);
        } else {
          DeleteSessions(bot.id, remoteJid);
        }
        return;
      }
      SendMessageToBot(s, settings, bot, remoteJid, pushName, content, reply, now);
    }
  }
}
