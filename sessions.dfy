/**
 * The integration-session records of the Dify bot and the rule that decides, for one
 * incoming message, what happens to the session it belongs to.
 *
 * The store is a map from record id to record. `create` hands out fresh ids, `update`
 * rewrites the fields it is given and fails on a missing id, and `deleteMany` removes
 * every record of one bot and one user.
 */
module Sessions {
  import opened Wrappers
  import opened Text

  datatype Status = Opened | Closed

  /** One integration session. `sessionId` is the backend conversation, or the user's
      own `remoteJid` while there is none. `updatedAt` is in milliseconds. */
  datatype Session = Session(
    id: nat,
    instanceId: string,
    botId: string,
    remoteJid: string,
    sessionId: string,
    status: Status,
    awaitUser: bool,
    updatedAt: int)

  /** The bot settings the gate reads. An unset number is 0 and an unset text is empty. */
  datatype Settings = Settings(
    expire: int,
    keepOpen: bool,
    keywordFinish: string,
    unknownMessage: string,
    delayMessage: int)

  /** The fields one `update` call writes; `None` leaves a field as stored. */
  datatype Patch = Patch(status: Option<Status>, awaitUser: Option<bool>, sessionId: Option<string>)

  /** What one call of `processDify` does with the session, in the order the checks
      are made. */
  datatype Decision =
    | Ignore                  // the session is not open
    | Restart(keepOpen: bool) // expired: close or delete it, then start afresh
    | Start                   // no session: create one and dispatch
    | Silent                  // empty message and no fallback text
    | Fallback(text: string)  // empty message: send the fallback text
    | Finish(keepOpen: bool)  // the finish keyword: close or delete, no dispatch
    | Dispatch                // hand the message to the bot

  /** Minutes are whole minutes rounded down, and the session lives through its last
      full minute: it is expired only once more than `expire` minutes have passed. */
  predicate Expired(expire: int, updatedAt: int, now: int) {
    expire > 0 && (now - updatedAt) / 60000 > expire
  }

  /** The message is the finish keyword, compared without case and without trimming. */
  predicate IsFinish(content: string, keywordFinish: string) {
    keywordFinish != [] && Lower(content) == Lower(keywordFinish)
  }

  /** The gate of `processDify`: status first, then expiry, then absence, then empty
      content, then the finish keyword. */
  function Decide(session: Option<Session>, settings: Settings, content: string, now: int): (d: Decision)
    ensures d == Start <==> session.None?
  {
    match session
    case None => Start
    case Some(s) =>
      if s.status != Opened then Ignore
      else if Expired(settings.expire, s.updatedAt, now) then Restart(settings.keepOpen)
      else if content == [] then
        (if settings.unknownMessage != [] then Fallback(settings.unknownMessage) else Silent)
      else if IsFinish(content, settings.keywordFinish) then Finish(settings.keepOpen)
      else Dispatch
  }

  /** A session that is not open is ignored whatever else holds; an open one is never
      ignored; absent sessions start afresh even for an empty message. */
  lemma GateOrder(session: Option<Session>, settings: Settings, content: string, now: int)
    ensures session.Some? && session.value.status == Closed ==> Decide(session, settings, content, now) == Ignore
    ensures session.Some? && session.value.status == Opened ==> Decide(session, settings, content, now) != Ignore
    ensures session.None? ==> Decide(session, settings, content, now) == Start
    ensures session.Some? && session.value.status == Opened && Expired(settings.expire, session.value.updatedAt, now) ==>
      Decide(session, settings, content, now) == Restart(settings.keepOpen)
  {
  }

  /** Expiry in plain terms: more than `expire` whole minutes, that is at least
      `expire + 1` minutes, have passed. */
  lemma ExpiredIff(expire: int, updatedAt: int, now: int)
    ensures Expired(expire, updatedAt, now) <==> expire > 0 && now - updatedAt >= (expire + 1) * 60000
  {
    var d := now - updatedAt;
    var q, r := d / 60000, d % 60000;
    assert d == q * 60000 + r && 0 <= r < 60000;
    if expire > 0 {
      if q > expire {
        assert q >= expire + 1;
        assert q * 60000 >= (expire + 1) * 60000;
      } else {
        assert q * 60000 <= expire * 60000;
      }
    }
  }

  /** The boundary: just under `expire + 1` minutes is not expired, `expire + 1` is. */
  lemma ExpiryBoundary(expire: int, updatedAt: int)
    requires expire > 0
    ensures !Expired(expire, updatedAt, updatedAt + expire * 60000)
    ensures !Expired(expire, updatedAt, updatedAt + (expire + 1) * 60000 - 1)
    ensures Expired(expire, updatedAt, updatedAt + (expire + 1) * 60000)
  {
    ExpiredIff(expire, updatedAt, updatedAt + expire * 60000);
    ExpiredIff(expire, updatedAt, updatedAt + (expire + 1) * 60000 - 1);
    ExpiredIff(expire, updatedAt, updatedAt + (expire + 1) * 60000);
  }

  /** The keyword matches however either side is cased, and only messages of its exact
      length: surrounding white space is not trimmed. */
  lemma FinishIgnoresCase(content: string, keywordFinish: string)
    ensures IsFinish(content, keywordFinish) <==> IsFinish(Upper(content), keywordFinish)
    ensures IsFinish(content, keywordFinish) <==> IsFinish(content, Upper(keywordFinish))
    ensures IsFinish(content, keywordFinish) ==> |content| == |keywordFinish|
  {
    LowerForgetsCase(content);
    LowerForgetsCase(keywordFinish);
    assert |Upper(keywordFinish)| == |keywordFinish|;
  }

  /** The record `create` makes for a new conversation: open, not waiting for the user,
      with the sentinel `sessionId`. */
  function NewSession(id: nat, instanceId: string, botId: string, remoteJid: string, now: int): (s: Session)
    ensures s.id == id && s.sessionId == s.remoteJid == remoteJid && s.botId == botId
    ensures s.status == Opened && !s.awaitUser
  {
    Session(id, instanceId, botId, remoteJid, remoteJid, Opened, false, now)
  }

  /** The record with the patch written over it and `updatedAt` refreshed. */
  function Apply(s: Session, patch: Patch, now: int): (r: Session)
    ensures r.id == s.id && r.botId == s.botId && r.remoteJid == s.remoteJid && r.instanceId == s.instanceId
    ensures r.status == patch.status.GetOr(s.status)
    ensures r.awaitUser == patch.awaitUser.GetOr(s.awaitUser)
    ensures r.sessionId == patch.sessionId.GetOr(s.sessionId)
  {
    s.(status := patch.status.GetOr(s.status),
       awaitUser := patch.awaitUser.GetOr(s.awaitUser),
       sessionId := patch.sessionId.GetOr(s.sessionId),
       updatedAt := now)
  }

  /** The record belongs to this bot and this user. */
  predicate Of(s: Session, botId: string, remoteJid: string) {
    s.botId == botId && s.remoteJid == remoteJid
  }

  /** Every record is filed under its own id, and ids below `nextId` are the ones used. */
  predicate WellFormed(records: map<nat, Session>, nextId: nat) {
    forall id :: id in records ==> records[id].id == id && id < nextId
  }

  /** `update` on the record `id`: `None` when there is no such record. */
  function UpdateRecord(records: map<nat, Session>, id: nat, patch: Patch, now: int): (r: Option<map<nat, Session>>)
    ensures r.Some? <==> id in records
    ensures r.Some? ==> r.value.Keys == records.Keys && r.value[id] == Apply(records[id], patch, now)
    ensures r.Some? ==> forall other :: other in records && other != id ==> r.value[other] == records[other]
  {
    if id in records then Some(records[id := Apply(records[id], patch, now)]) else None
  }

  /** `deleteMany` of the records of one bot and one user. */
  function DeleteRecords(records: map<nat, Session>, botId: string, remoteJid: string): (r: map<nat, Session>)
    ensures forall id :: id in r <==> id in records && !Of(records[id], botId, remoteJid)
    ensures forall id :: id in r ==> r[id] == records[id]
  {
    map id | id in records && !Of(records[id], botId, remoteJid) :: records[id]
  }

  /** The store operations keep it well formed. */
  lemma StoreKeepsWellFormed(records: map<nat, Session>, nextId: nat, id: nat, patch: Patch, now: int,
                             botId: string, remoteJid: string, instanceId: string)
    requires WellFormed(records, nextId)
    ensures WellFormed(records[nextId := NewSession(nextId, instanceId, botId, remoteJid, now)], nextId + 1)
    ensures nextId !in records
    ensures UpdateRecord(records, id, patch, now).Some? ==> WellFormed(UpdateRecord(records, id, patch, now).value, nextId)
    ensures WellFormed(DeleteRecords(records, botId, remoteJid), nextId)
  {
  }
}
