/**
 * The request `sendMessageToBot` posts to the Dify backend for one user message,
 * and the rule by which the stored `sessionId` follows the backend's conversation.
 *
 * A stored `sessionId` equal to the user's `remoteJid` is a sentinel: no backend
 * conversation exists yet. Chat-style modes then omit `conversation_id` and adopt
 * the one the backend returns; afterwards they keep sending and keeping it.
 */
module Dispatch {
  import opened Wrappers
  import opened Text

  /** `dify.botType`. */
  datatype BotMode = ChatBot | TextGenerator | Agent | Workflow

  /** Where the query travels: the payload's own `query` field, or `inputs.query`. */
  datatype QueryField = TopLevel | InInputs

  /** A request to the backend, without the headers, the configuration strings and
      the wire format. `imageUrl` is the single `files` entry, if any. */
  datatype Request = Request(
    endpoint: string,
    streaming: bool,
    queryAt: QueryField,
    query: string,
    conversationId: Option<string>,
    imageUrl: Option<string>,
    user: string,
    pushName: string)

  /** The image part of an image message: the file url and the query sent with it. */
  datatype ImageFile = ImageFile(url: string, query: string)

  /** `content.includes('imageMessage')`. */
  function IsImageMessage(content: string): (b: bool)
    ensures b <==> exists i: nat :: OccursAt(content, "imageMessage", i)
    ensures b ==> |content| >= 12
  {
    ContainsIff(content, "imageMessage");
    Contains(content, "imageMessage")
  }

  /** The image split: the url is the second `|` field cut at its first `?`, the query
      the third field, or the whole content when that field is missing or empty. With
      no `|` at all the second field is undefined and the split throws (`None`). */
  function ImagePayload(content: string): (r: Option<ImageFile>)
    ensures r.None? <==> '|' !in content
    ensures r.Some? ==> '?' !in r.value.url && '|' !in r.value.url && r.value.query != []
  {
    var fields := Split(content, '|');
    if |fields| < 2 then
      SplitFieldsOfSepFree(content, '|');
      None
    else
      SplitManyFields(content, '|');
      SplitFieldsSepFree(content, '|');
      var url := BeforeFirst(fields[1], '?');
      PrefixKeepsOut(fields[1], |url|, '|');
      Some(ImageFile(url, if |fields| > 2 && fields[2] != [] then fields[2] else content))
  }

  /** A string without the separator splits into itself alone. */
  lemma SplitFieldsOfSepFree(s: string, sep: char)
    ensures |Split(s, sep)| == 1 <==> sep !in s
    ensures sep !in s ==> Split(s, sep) == [s]
  {
  }

  /** A string with the separator splits into at least two fields. */
  lemma SplitManyFields(s: string, sep: char)
    requires |Split(s, sep)| >= 2
    ensures sep in s
  {
    SplitFieldsOfSepFree(s, sep);
  }

  lemma PrefixKeepsOut(s: string, n: nat, c: char)
    requires n <= |s| && c !in s
    ensures c !in s[..n]
  {
    assert forall k :: 0 <= k < n ==> s[..n][k] == s[k];
  }

  /** The first field of `f + tail`, `tail` empty or starting at a separator, is `f`. */
  lemma FirstField(f: string, tail: string, sep: char)
    requires sep !in f && (tail == [] || tail[0] == sep)
    ensures Split(f + tail, sep)[0] == f
  {
    if tail == [] {
      assert f + tail == f;
      SplitFieldsOfSepFree(f, sep);
    } else {
      assert f + tail == f + [sep] + tail[1..];
      SplitAtFirst(f, sep, tail[1..]);
    }
  }

  /** Two leading fields, then the rest. */
  lemma TwoFieldsThen(a: string, f1: string, t: string, sep: char)
    requires sep !in a && sep !in f1
    ensures Split(a + [sep] + (f1 + [sep] + t), sep) == [a, f1] + Split(t, sep)
  {
    var rest := Split(t, sep);
    SplitAtFirst(f1, sep, t);
    assert Split(f1 + [sep] + t, sep) == [f1] + rest;
    SplitAtFirst(a, sep, f1 + [sep] + t);
    assert [a] + ([f1] + rest) == [a, f1] + rest;
  }

  /** Content with two or more `|`: the url comes from the second field and the query
      is the third field unless it is empty. */
  lemma ImageFromThreeFields(content: string, a: string, f1: string, f2: string, tail: string)
    requires '|' !in a && '|' !in f1 && '|' !in f2 && (tail == [] || tail[0] == '|')
    requires content == a + ['|'] + f1 + ['|'] + f2 + tail
    ensures ImagePayload(content) == Some(ImageFile(BeforeFirst(f1, '?'), if f2 != [] then f2 else content))
  {
    var rest := f2 + tail;
    assert content == a + ['|'] + (f1 + ['|'] + rest);
    TwoFieldsThen(a, f1, rest, '|');
    FirstField(f2, tail, '|');
    var fields := Split(content, '|');
    assert |fields| > 2 && fields[1] == f1 && fields[2] == f2;
  }

  /** Content with exactly one `|`: the url comes from the second field and, the third
      field being undefined, the query is the whole content. */
  lemma ImageFromTwoFields(content: string, a: string, f1: string)
    requires '|' !in a && '|' !in f1 && content == a + ['|'] + f1
    ensures ImagePayload(content) == Some(ImageFile(BeforeFirst(f1, '?'), content))
  {
    SplitAtFirst(a, '|', f1);
    SplitFieldsOfSepFree(f1, '|');
  }

  /** The path appended to `dify.apiUrl` for each mode. */
  function EndpointSuffix(mode: BotMode): string {
    match mode
    case ChatBot => "/chat-messages"
    case TextGenerator => "/completion-messages"
    case Agent => "/chat-messages"
    case Workflow => "/workflows/run"
  }

  /** `session.sessionId === remoteJid ? undefined : session.sessionId`; workflow
      payloads have no such field. */
  function RequestConversation(mode: BotMode, sessionId: string, remoteJid: string): Option<string> {
    if mode == Workflow || sessionId == remoteJid then None else Some(sessionId)
  }

  /** The request for one message, or `None` when building it throws: an image message
      with no `|` to split at. */
  function BuildRequest(mode: BotMode, apiUrl: string, sessionId: string, remoteJid: string,
                        pushName: string, content: string): (r: Option<Request>)
    ensures r.None? <==> IsImageMessage(content) && '|' !in content
    ensures r.Some? ==> r.value.endpoint == apiUrl + EndpointSuffix(mode) && r.value.user == remoteJid
    ensures r.Some? ==> (r.value.streaming <==> mode == Agent)
    ensures r.Some? ==> (r.value.queryAt == InInputs <==> mode == TextGenerator || mode == Workflow)
    ensures r.Some? ==> (r.value.imageUrl.Some? <==> IsImageMessage(content))
    ensures r.Some? && !IsImageMessage(content) ==> r.value.query == content
    ensures r.Some? && IsImageMessage(content) ==>
      ImagePayload(content).Some? && r.value.imageUrl == Some(ImagePayload(content).value.url)
      && r.value.query == ImagePayload(content).value.query
    ensures r.Some? ==> (r.value.conversationId.Some? <==> mode != Workflow && sessionId != remoteJid)
    ensures r.Some? && r.value.conversationId.Some? ==> r.value.conversationId.value == sessionId
    ensures r.Some? ==> r.value.pushName == pushName
    ensures r.Some? ==> r.value.query != [] || content == []
  {
    var queryAt := if mode == TextGenerator || mode == Workflow then InInputs else TopLevel;
    var base := Request(apiUrl + EndpointSuffix(mode), mode == Agent, queryAt, content,
                        RequestConversation(mode, sessionId, remoteJid), None, remoteJid, pushName);
    if !IsImageMessage(content) then Some(base)
    else match ImagePayload(content)
      case None => None
      case Some(img) => Some(base.(query := img.query, imageUrl := Some(img.url)))
  }

  /** The value the post-reply update gives `sessionId`, `None` when the field is
      `undefined` and so left as stored. Chat and completion adopt the reply's id only
      over the sentinel; the agent writes whatever id its stream carried; workflow
      writes nothing. */
  function SessionIdWrite(mode: BotMode, sessionId: string, remoteJid: string, replyId: Option<string>): Option<string> {
    match mode
    case ChatBot => if sessionId == remoteJid then replyId else Some(sessionId)
    case TextGenerator => if sessionId == remoteJid then replyId else Some(sessionId)
    case Agent => replyId
    case Workflow => None
  }

  /** The stored `sessionId` after one successful reply. */
  function NextSessionId(mode: BotMode, sessionId: string, remoteJid: string, replyId: Option<string>): string {
    SessionIdWrite(mode, sessionId, remoteJid, replyId).GetOr(sessionId)
  }

  /** Chat and completion keep an established conversation whatever the reply says, and
      a request carries the conversation id exactly when one is established. */
  lemma EstablishedConversationIsKept(mode: BotMode, sessionId: string, remoteJid: string, replyId: Option<string>)
    requires mode == ChatBot || mode == TextGenerator
    ensures sessionId != remoteJid ==> NextSessionId(mode, sessionId, remoteJid, replyId) == sessionId
    ensures sessionId == remoteJid && replyId.Some? ==> NextSessionId(mode, sessionId, remoteJid, replyId) == replyId.value
    ensures RequestConversation(mode, sessionId, remoteJid).Some? <==> sessionId != remoteJid
  {
  }

  /** The stored `sessionId` after a run of successful replies, one reply id each. */
  function SessionAfter(mode: BotMode, sessionId: string, remoteJid: string, replyIds: seq<Option<string>>): string
    decreases |replyIds|
  {
    if replyIds == [] then sessionId
    else SessionAfter(mode, NextSessionId(mode, sessionId, remoteJid, replyIds[0]), remoteJid, replyIds[1..])
  }

  /** The requests of a run of successful replies: the conversation each one carries. */
  function ConversationsSent(mode: BotMode, sessionId: string, remoteJid: string, replyIds: seq<Option<string>>): (sent: seq<Option<string>>)
    ensures |sent| == |replyIds|
    decreases |replyIds|
  {
    if replyIds == [] then []
    else
      var next := NextSessionId(mode, sessionId, remoteJid, replyIds[0]);
      [RequestConversation(mode, sessionId, remoteJid)] + ConversationsSent(mode, next, remoteJid, replyIds[1..])
  }

  /** Once chat or completion has a conversation, every later request carries it and it
      never changes. */
  lemma {:induction false} EstablishedIsStable(mode: BotMode, sessionId: string, remoteJid: string, replyIds: seq<Option<string>>)
    requires mode == ChatBot || mode == TextGenerator
    requires sessionId != remoteJid
    ensures SessionAfter(mode, sessionId, remoteJid, replyIds) == sessionId
    ensures forall i :: 0 <= i < |replyIds| ==> ConversationsSent(mode, sessionId, remoteJid, replyIds)[i] == Some(sessionId)
    decreases |replyIds|
  {
    if replyIds != [] {
      EstablishedIsStable(mode, sessionId, remoteJid, replyIds[1..]);
    }
  }

  /** From the sentinel, chat and completion send no conversation until a reply brings
      one, adopt the first id that differs from the sentinel, and keep it from then on. */
  lemma {:induction false} FirstIdIsAdopted(mode: BotMode, remoteJid: string, none: seq<Option<string>>, id: string, rest: seq<Option<string>>)
    requires mode == ChatBot || mode == TextGenerator
    requires forall i :: 0 <= i < |none| ==> none[i].None?
    requires id != remoteJid
    ensures SessionAfter(mode, remoteJid, remoteJid, none + [Some(id)] + rest) == id
    ensures forall i :: 0 <= i <= |none| ==> ConversationsSent(mode, remoteJid, remoteJid, none + [Some(id)] + rest)[i].None?
    ensures forall i :: |none| < i <= |none| + |rest| ==> ConversationsSent(mode, remoteJid, remoteJid, none + [Some(id)] + rest)[i] == Some(id)
    decreases |none|
  {
    var ids := none + [Some(id)] + rest;
    if none == [] {
      assert ids[0] == Some(id) && ids[1..] == rest;
      EstablishedIsStable(mode, id, remoteJid, rest);
    } else {
      assert ids[0] == None && ids[1..] == none[1..] + [Some(id)] + rest;
      FirstIdIsAdopted(mode, remoteJid, none[1..], id, rest);
    }
  }

  /** Workflow mode never sends a conversation and never changes `sessionId`. */
  lemma {:induction false} WorkflowIgnoresConversations(sessionId: string, remoteJid: string, replyIds: seq<Option<string>>)
    ensures SessionAfter(Workflow, sessionId, remoteJid, replyIds) == sessionId
    ensures forall i :: 0 <= i < |replyIds| ==> ConversationsSent(Workflow, sessionId, remoteJid, replyIds)[i].None?
    decreases |replyIds|
  {
    if replyIds != [] {
      WorkflowIgnoresConversations(sessionId, remoteJid, replyIds[1..]);
    }
  }

  /** The id of the last reply that carried one, if any. */
  function LastId(replyIds: seq<Option<string>>): Option<string>
    decreases |replyIds|
  {
    if replyIds == [] then None
    else if replyIds[|replyIds| - 1].Some? then replyIds[|replyIds| - 1]
    else LastId(replyIds[..|replyIds| - 1])
  }

  /** The agent overwrites `sessionId` with every id a stream carries, so it ends on the
      last one, whatever was stored before. */
  lemma {:induction false} AgentKeepsLastId(sessionId: string, remoteJid: string, replyIds: seq<Option<string>>)
    ensures SessionAfter(Agent, sessionId, remoteJid, replyIds) == LastId(replyIds).GetOr(sessionId)
    decreases |replyIds|
  {
    if replyIds != [] {
      var n := |replyIds| - 1;
      SessionAfterSnoc(Agent, sessionId, remoteJid, replyIds[..n], replyIds[n]);
      assert replyIds[..n] + [replyIds[n]] == replyIds;
      AgentKeepsLastId(sessionId, remoteJid, replyIds[..n]);
    }
  }

  /** One more reply at the end of a run. */
  lemma {:induction false} SessionAfterSnoc(mode: BotMode, sessionId: string, remoteJid: string, replyIds: seq<Option<string>>, last: Option<string>)
    ensures SessionAfter(mode, sessionId, remoteJid, replyIds + [last])
      == NextSessionId(mode, SessionAfter(mode, sessionId, remoteJid, replyIds), remoteJid, last)
    decreases |replyIds|
  {
    if replyIds == [] {
      assert [] + [last] == [last];
    } else {
      assert (replyIds + [last])[1..] == replyIds[1..] + [last];
      SessionAfterSnoc(mode, NextSessionId(mode, sessionId, remoteJid, replyIds[0]), remoteJid, replyIds[1..], last);
    }
  }
}
