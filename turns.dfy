/**
 * What one call of `processDify` does, stated over the observable state: which
 * records it creates, rewrites or removes, which requests it posts to the backend and
 * which messages it sends to the user.
 */
module Turns {
  import opened Wrappers
  import opened Dispatch
  import opened Stream
  import opened Sessions
  import opened Service

  /** The records other than `id` are as they were, and no record appears or vanishes. */
  predicate OthersKept(before: map<nat, Session>, after: map<nat, Session>, id: nat) {
    after.Keys == before.Keys && forall other :: other in before && other != id ==> after[other] == before[other]
  }

  /** `sendMessageToBot` in observable terms: it posts the request when one can be
      built; if the reply is usable it delivers it and then rewrites the session record
      to open and awaiting the user, with the conversation the mode keeps. It never
      creates or removes a record. */
  lemma SendToBotEffects(w: World, session: Session, settings: Settings, bot: Bot, remoteJid: string,
                         pushName: string, content: string, reply: Reply, parse: string -> Option<StreamEvent>, now: int)
    ensures var r := SendToBot(w, session, settings, bot, remoteJid, pushName, content, reply, parse, now);
      var request := BuildRequest(bot.mode, bot.apiUrl, session.sessionId, remoteJid, pushName, content);
      var answer := ReadReply(bot.mode, reply, parse);
      r.nextId == w.nextId
      && r.posted == w.posted + (if request.Some? then [request.value] else [])
      && r.sent == w.sent + (if request.Some? && answer.Some? then Delivery(answer.value.text, remoteJid, settings.delayMessage) else [])
      && OthersKept(w.sessions, r.sessions, session.id)
      && (session.id in w.sessions ==>
            r.sessions[session.id] ==
              if request.Some? && answer.Some? then
                Apply(w.sessions[session.id], AwaitPatch(bot.mode, session.sessionId, remoteJid, answer.value.conversationId), now)
              else w.sessions[session.id])
  {
  }

  /** A session that is not open is left alone: nothing is written, posted or sent,
      whatever the message and however old the session. */
  lemma ClosedSessionIsIgnored(w: World, s: Session, instanceId: string, settings: Settings, bot: Bot,
                               remoteJid: string, pushName: string, content: string, reply: Reply,
                               parse: string -> Option<StreamEvent>, now: int)
    requires s.status == Closed
    ensures ProcessTurn(w, Some(s), instanceId, settings, bot, remoteJid, pushName, content, reply, parse, now) == w
  {
  }

  /** With no session, a record is created for the user, open, not waiting and with the
      sentinel conversation, and the message is dispatched even when it is empty: a plain
      message is posted without a conversation id. Existing records are untouched. */
  lemma AbsentSessionStarts(w: World, instanceId: string, settings: Settings, bot: Bot,
                            remoteJid: string, pushName: string, content: string, reply: Reply,
                            parse: string -> Option<StreamEvent>, now: int)
    ensures var r := ProcessTurn(w, None, instanceId, settings, bot, remoteJid, pushName, content, reply, parse, now);
      r.nextId == w.nextId + 1 && w.nextId in r.sessions
      && r.sessions[w.nextId].botId == bot.id && r.sessions[w.nextId].remoteJid == remoteJid
      && r.sessions[w.nextId].status == Opened
      && forall id :: id in w.sessions && id != w.nextId ==> id in r.sessions && r.sessions[id] == w.sessions[id]
    ensures var r := ProcessTurn(w, None, instanceId, settings, bot, remoteJid, pushName, content, reply, parse, now);
      var request := BuildRequest(bot.mode, bot.apiUrl, remoteJid, remoteJid, pushName, content);
      r.posted == w.posted + (if request.Some? then [request.value] else [])
    ensures var r := ProcessTurn(w, None, instanceId, settings, bot, remoteJid, pushName, content, reply, parse, now);
      !IsImageMessage(content) ==>
        |r.posted| == |w.posted| + 1 && r.posted[|w.posted|].query == content
        && r.posted[|w.posted|].conversationId.None?
  {
    var session := NewSession(w.nextId, instanceId, bot.id, remoteJid, now);
    var w1 := w.(sessions := w.sessions[w.nextId := session], nextId := w.nextId + 1);
    SendToBotEffects(w1, session, settings, bot, remoteJid, pushName, content, reply, parse, now);
  }

  /** An expired open session is closed (`keepOpen`) or all records of the user are
      deleted, and a new record is created and the message dispatched with it, as the
      first message of a conversation. */
  lemma ExpiredSessionRestarts(w: World, s: Session, instanceId: string, settings: Settings, bot: Bot,
                               remoteJid: string, pushName: string, content: string, reply: Reply,
                               parse: string -> Option<StreamEvent>, now: int)
    requires settings.keepOpen ==> WellFormed(w.sessions, w.nextId) && s.id in w.sessions
    requires s.status == Opened && Expired(settings.expire, s.updatedAt, now)
    ensures var r := ProcessTurn(w, Some(s), instanceId, settings, bot, remoteJid, pushName, content, reply, parse, now);
      r.nextId == w.nextId + 1 && w.nextId in r.sessions
      && r.sessions[w.nextId].remoteJid == remoteJid && r.sessions[w.nextId].botId == bot.id
    ensures var r := ProcessTurn(w, Some(s), instanceId, settings, bot, remoteJid, pushName, content, reply, parse, now);
      var request := BuildRequest(bot.mode, bot.apiUrl, remoteJid, remoteJid, pushName, content);
      r.posted == w.posted + (if request.Some? then [request.value] else [])
    ensures var r := ProcessTurn(w, Some(s), instanceId, settings, bot, remoteJid, pushName, content, reply, parse, now);
      settings.keepOpen ==> s.id in r.sessions && r.sessions[s.id].status == Closed
    ensures var r := ProcessTurn(w, Some(s), instanceId, settings, bot, remoteJid, pushName, content, reply, parse, now);
      !settings.keepOpen ==> forall id :: id in r.sessions && Of(r.sessions[id], bot.id, remoteJid) ==> id == w.nextId
  {
    var w0 := if settings.keepOpen then UpdateOr(w, s.id, ClosePatch, now)
              else w.(sessions := DeleteRecords(w.sessions, bot.id, remoteJid));
    assert ProcessTurn(w, Some(s), instanceId, settings, bot, remoteJid, pushName, content, reply, parse, now)
        == StartSession(w0, instanceId, settings, bot, remoteJid, pushName, content, reply, parse, now);
    var session := NewSession(w0.nextId, instanceId, bot.id, remoteJid, now);
    var w1 := w0.(sessions := w0.sessions[w0.nextId := session], nextId := w0.nextId + 1);
    SendToBotEffects(w1, session, settings, bot, remoteJid, pushName, content, reply, parse, now);
  }

  /** An expired session that is to be kept but whose record has vanished: closing it
      throws and the call ends with nothing written, posted or sent. */
  lemma ExpiredCloseAborts(w: World, s: Session, instanceId: string, settings: Settings, bot: Bot,
                           remoteJid: string, pushName: string, content: string, reply: Reply,
                           parse: string -> Option<StreamEvent>, now: int)
    requires s.status == Opened && Expired(settings.expire, s.updatedAt, now)
    requires settings.keepOpen && s.id !in w.sessions
    ensures ProcessTurn(w, Some(s), instanceId, settings, bot, remoteJid, pushName, content, reply, parse, now) == w
  {
  }

  /** An open, unexpired session whose record has vanished: the refresh throws and the
      call ends with nothing written, posted or sent. */
  lemma MissingRecordAborts(w: World, s: Session, instanceId: string, settings: Settings, bot: Bot,
                            remoteJid: string, pushName: string, content: string, reply: Reply,
                            parse: string -> Option<StreamEvent>, now: int)
    requires s.status == Opened && !Expired(settings.expire, s.updatedAt, now) && s.id !in w.sessions
    ensures ProcessTurn(w, Some(s), instanceId, settings, bot, remoteJid, pushName, content, reply, parse, now) == w
  {
  }

  /** An open, unexpired session is first refreshed to open and not waiting, and what
      follows depends only on the message. */
  lemma OpenSessionIsRefreshed(w: World, s: Session, instanceId: string, settings: Settings, bot: Bot,
                               remoteJid: string, pushName: string, content: string, reply: Reply,
                               parse: string -> Option<StreamEvent>, now: int)
    requires s.status == Opened && !Expired(settings.expire, s.updatedAt, now) && s.id in w.sessions
    ensures ProcessTurn(w, Some(s), instanceId, settings, bot, remoteJid, pushName, content, reply, parse, now)
      == AfterRefresh(w.(sessions := w.sessions[s.id := Apply(w.sessions[s.id], RefreshPatch, now)]),
                      s, settings, bot, remoteJid, pushName, content, reply, parse, now)
  {
  }

  /** An empty message to an open session posts nothing; it sends the fallback text if
      one is set and nothing otherwise; the session is left open and not waiting. */
  lemma EmptyMessageFallsBack(w: World, s: Session, instanceId: string, settings: Settings, bot: Bot,
                              remoteJid: string, pushName: string, reply: Reply,
                              parse: string -> Option<StreamEvent>, now: int)
    requires s.status == Opened && !Expired(settings.expire, s.updatedAt, now) && s.id in w.sessions
    ensures var r := ProcessTurn(w, Some(s), instanceId, settings, bot, remoteJid, pushName, [], reply, parse, now);
      r.posted == w.posted
      && r.sent == w.sent + (if settings.unknownMessage != [] then [FallbackMessage(settings.unknownMessage, remoteJid, settings.delayMessage)] else [])
      && OthersKept(w.sessions, r.sessions, s.id)
      && r.sessions[s.id].status == Opened && !r.sessions[s.id].awaitUser
  {
    OpenSessionIsRefreshed(w, s, instanceId, settings, bot, remoteJid, pushName, [], reply, parse, now);
  }

  /** The finish keyword posts and sends nothing; it closes the session if it is to be
      kept, and otherwise removes every record of the user with this bot. */
  lemma FinishKeywordEnds(w: World, s: Session, instanceId: string, settings: Settings, bot: Bot,
                          remoteJid: string, pushName: string, content: string, reply: Reply,
                          parse: string -> Option<StreamEvent>, now: int)
    requires s.status == Opened && !Expired(settings.expire, s.updatedAt, now) && s.id in w.sessions
    requires content != [] && IsFinish(content, settings.keywordFinish)
    ensures var r := ProcessTurn(w, Some(s), instanceId, settings, bot, remoteJid, pushName, content, reply, parse, now);
      r.posted == w.posted && r.sent == w.sent
    ensures var r := ProcessTurn(w, Some(s), instanceId, settings, bot, remoteJid, pushName, content, reply, parse, now);
      settings.keepOpen ==> s.id in r.sessions && r.sessions[s.id].status == Closed && !r.sessions[s.id].awaitUser
    ensures var r := ProcessTurn(w, Some(s), instanceId, settings, bot, remoteJid, pushName, content, reply, parse, now);
      !settings.keepOpen ==> forall id :: id in r.sessions ==> !Of(r.sessions[id], bot.id, remoteJid)
  {
    OpenSessionIsRefreshed(w, s, instanceId, settings, bot, remoteJid, pushName, content, reply, parse, now);
  }

  /** Any other message is dispatched; when the request can be built and the reply is
      usable, the reply is delivered and the session ends open and waiting for the user,
      holding the conversation its mode keeps. */
  lemma DispatchAwaitsUser(w: World, s: Session, instanceId: string, settings: Settings, bot: Bot,
                           remoteJid: string, pushName: string, content: string, reply: Reply,
                           parse: string -> Option<StreamEvent>, now: int)
    requires s.status == Opened && !Expired(settings.expire, s.updatedAt, now) && s.id in w.sessions
    requires content != [] && !IsFinish(content, settings.keywordFinish)
    requires BuildRequest(bot.mode, bot.apiUrl, s.sessionId, remoteJid, pushName, content).Some?
    requires ReadReply(bot.mode, reply, parse).Some?
    ensures var r := ProcessTurn(w, Some(s), instanceId, settings, bot, remoteJid, pushName, content, reply, parse, now);
      var answer := ReadReply(bot.mode, reply, parse).value;
      r.posted == w.posted + [BuildRequest(bot.mode, bot.apiUrl, s.sessionId, remoteJid, pushName, content).value]
      && r.sent == w.sent + Delivery(answer.text, remoteJid, settings.delayMessage)
      && OthersKept(w.sessions, r.sessions, s.id)
      && r.sessions[s.id].status == Opened && r.sessions[s.id].awaitUser
      && r.sessions[s.id].sessionId ==
           SessionIdWrite(bot.mode, s.sessionId, remoteJid, answer.conversationId).GetOr(w.sessions[s.id].sessionId)
  {
    OpenSessionIsRefreshed(w, s, instanceId, settings, bot, remoteJid, pushName, content, reply, parse, now);
    var w1 := w.(sessions := w.sessions[s.id := Apply(w.sessions[s.id], RefreshPatch, now)]);
    SendToBotEffects(w1, s, settings, bot, remoteJid, pushName, content, reply, parse, now);
  }

  /** Every turn keeps the store well formed. */
  lemma ProcessTurnKeepsWellFormed(w: World, session: Option<Session>, instanceId: string, settings: Settings, bot: Bot,
                                   remoteJid: string, pushName: string, content: string, reply: Reply,
                                   parse: string -> Option<StreamEvent>, now: int)
    requires WellFormed(w.sessions, w.nextId)
    ensures var r := ProcessTurn(w, session, instanceId, settings, bot, remoteJid, pushName, content, reply, parse, now);
      WellFormed(r.sessions, r.nextId) && r.nextId >= w.nextId
  {
    match session
    case None =>
      StartKeepsWellFormed(w, instanceId, settings, bot, remoteJid, pushName, content, reply, parse, now);
    case Some(s) =>
      if s.status == Closed {
      } else if Expired(settings.expire, s.updatedAt, now) {
        if settings.keepOpen {
          if s.id in w.sessions {
            StartKeepsWellFormed(UpdateOr(w, s.id, ClosePatch, now), instanceId, settings, bot, remoteJid, pushName,
                                 content, reply, parse, now);
          }
        } else {
          StartKeepsWellFormed(w.(sessions := DeleteRecords(w.sessions, bot.id, remoteJid)), instanceId, settings, bot,
                               remoteJid, pushName, content, reply, parse, now);
        }
      } else if s.id in w.sessions {
        OpenSessionIsRefreshed(w, s, instanceId, settings, bot, remoteJid, pushName, content, reply, parse, now);
        AfterRefreshKeepsWellFormed(w.(sessions := w.sessions[s.id := Apply(w.sessions[s.id], RefreshPatch, now)]),
                                    s, settings, bot, remoteJid, pushName, content, reply, parse, now);
      }
  }

  lemma AfterRefreshKeepsWellFormed(w: World, s: Session, settings: Settings, bot: Bot, remoteJid: string,
                                    pushName: string, content: string, reply: Reply,
                                    parse: string -> Option<StreamEvent>, now: int)
    requires WellFormed(w.sessions, w.nextId)
    ensures var r := AfterRefresh(w, s, settings, bot, remoteJid, pushName, content, reply, parse, now);
      WellFormed(r.sessions, r.nextId) && r.nextId == w.nextId
  {
    if content != [] && !IsFinish(content, settings.keywordFinish) {
      SendToBotEffects(w, s, settings, bot, remoteJid, pushName, content, reply, parse, now);
    }
  }

  lemma StartKeepsWellFormed(w: World, instanceId: string, settings: Settings, bot: Bot,
                             remoteJid: string, pushName: string, content: string, reply: Reply,
                             parse: string -> Option<StreamEvent>, now: int)
    requires WellFormed(w.sessions, w.nextId)
    ensures var r := StartSession(w, instanceId, settings, bot, remoteJid, pushName, content, reply, parse, now);
      WellFormed(r.sessions, r.nextId) && r.nextId == w.nextId + 1
  {
    var session := NewSession(w.nextId, instanceId, bot.id, remoteJid, now);
    var w1 := w.(sessions := w.sessions[w.nextId := session], nextId := w.nextId + 1);
    SendToBotEffects(w1, session, settings, bot, remoteJid, pushName, content, reply, parse, now);
  }
}
