# Dify chatbot service: a Dafny model

This project models `DifyService`, the part of the WhatsApp API server that connects
a WhatsApp conversation to a Dify backend. The backend runs in one of four modes:
chat bot, text generator, agent or workflow. For every incoming message, `processDify`
checks the user's integration session:

- a session that is not open is ignored;
- an expired session is closed or deleted, and a fresh one is started;
- with no session, a fresh one is started;
- otherwise the session is refreshed, and then:
  - an empty message gets the fallback text;
  - the finish keyword ends the session;
  - any other message is posted to the backend (`sendMessageToBot`).

`sendMessageToBot` builds one request per mode, including an image file when the
message carries one. It reads the reply: a blocking body, or, for the agent, a
streamed sequence of `agent_message` events folded into one answer. It delivers the
reply to WhatsApp and rewrites the session record with the conversation id the
backend returned. `sendMessageWhatsApp` cuts the reply, left to right, at every
`[caption](url)` (or `![caption](url)`) into text and image parts. It sends each part
that has something to send.

The stored `sessionId` equals the user's `remoteJid` while no backend conversation
exists. That value is a sentinel: chat-style requests then carry no conversation id.

Modules, one per file:

- `Wrappers` (`wrappers.dfy`): `Option`.
- `Text` (`text.dfy`): the JavaScript string operations used: `trim`, `split`,
  `includes`, `split(c)[0]` and `toLowerCase`.
- `Transcoder` (`transcoder.dfy`): the reply scanner, its loop, and delivery.
- `Dispatch` (`dispatch.dfy`): the request of each mode, the image split, and the
  conversation-id continuity rule.
- `Stream` (`stream.dfy`): the agent stream fold.
- `Sessions` (`sessions.dfy`): session records, the gate of `processDify`, and the
  store operations.
- `Service` (`service.dfy`): the class `DifyService`. Its fields are the session
  store, the next record id, the messages sent and the requests posted. Each method is
  proved equal to a pure function of the old state (`SendToBot`, `StartSession`,
  `ProcessTurn`).
- `Turns` (`turns.dfy`): what one `processDify` call does to that state.

All source paths below are relative to the repository root; the whole core is
`src/api/integrations/chatbot/dify/services/dify.service.ts`.

## Model

| member | source | states |
|---|---|---|
| Text.Trim | src/api/integrations/chatbot/dify/services/dify.service.ts:343 | definition: `trim`, the leading then the trailing white space removed (properties in `Text.TrimFacts`) |
| Text.TrimFacts | src/api/integrations/chatbot/dify/services/dify.service.ts:343 | `trim` gives the empty string exactly for all-white-space input; otherwise the result neither starts nor ends with white space |
| Text.TrimIdempotent | src/api/integrations/chatbot/dify/services/dify.service.ts:352 | trimming a trimmed string changes nothing |
| Text.TrimStartFacts | src/api/integrations/chatbot/dify/services/dify.service.ts:231 | the leading-white-space strip drops only white space and keeps a suffix not starting with white space |
| Text.TrimEndFacts | src/api/integrations/chatbot/dify/services/dify.service.ts:343 | the trailing strip drops only white space and keeps a prefix not ending with white space |
| Text.ContainsAt | src/api/integrations/chatbot/dify/services/dify.service.ts:40-42 | `includes` is true whenever the substring occurs at some offset |
| Text.ContainsIff | src/api/integrations/chatbot/dify/services/dify.service.ts:40-42 | `includes` is true exactly when the substring occurs at some offset, in both directions |
| Text.Contains | src/api/integrations/chatbot/dify/services/dify.service.ts:40-42 | definition of `includes` by a scan from each offset; a match needs the substring to fit |
| Text.IndexOf | src/api/integrations/chatbot/dify/services/dify.service.ts:82 | the index found holds the character and none occurs before it; `None` means the character is absent |
| Text.Split | src/api/integrations/chatbot/dify/services/dify.service.ts:82 | definition of `split(sep)`: never an empty list of fields |
| Text.SplitFieldsSepFree | src/api/integrations/chatbot/dify/services/dify.service.ts:82 | no field of `split(sep)` contains the separator |
| Text.JoinSplit | src/api/integrations/chatbot/dify/services/dify.service.ts:82 | joining the fields of a split with the separator gives back the original string |
| Text.SplitAtFirst | src/api/integrations/chatbot/dify/services/dify.service.ts:82 | splitting `a + sep + b`, with no separator in `a`, gives `a` followed by the fields of `b` |
| Text.BeforeFirst | src/api/integrations/chatbot/dify/services/dify.service.ts:88 | `split(c)[0]` is the longest prefix free of `c`: either the whole string, or the string is followed by `c` |
| Text.LowerForgetsCase | src/api/integrations/chatbot/dify/services/dify.service.ts:484 | lower-casing forgets how a string was cased, and is idempotent |
| Text.Lower | src/api/integrations/chatbot/dify/services/dify.service.ts:484 | definition of `toLowerCase`: each character lowered, the length kept |
| Transcoder.LineEndFacts | src/api/integrations/chatbot/dify/services/dify.service.ts:335 | the regex `.` can run from a position up to the next line terminator, and no further |
| Transcoder.CaptionEndFacts | src/api/integrations/chatbot/dify/services/dify.service.ts:335 | the lazy caption group ends at the first `](` on its line, and fails exactly when the line has none |
| Transcoder.UrlEndFacts | src/api/integrations/chatbot/dify/services/dify.service.ts:335 | the lazy url group ends at the first `)` on its line, and fails exactly when the line has none |
| Transcoder.MatchAt | src/api/integrations/chatbot/dify/services/dify.service.ts:335 | definition of one regex attempt at a position: a match found there starts there and ends inside the reply |
| Transcoder.MatchAtMarkup | src/api/integrations/chatbot/dify/services/dify.service.ts:335 | a match covers exactly `[caption](url)` or `![caption](url)`; neither group crosses a line, and the url has no `)` |
| Transcoder.NoBacktrackingNeeded | src/api/integrations/chatbot/dify/services/dify.service.ts:335 | stretching the caption to a later `](` on the line can never give a url, so reading the regex without backtracking is exact |
| Transcoder.MatchAtComplete | src/api/integrations/chatbot/dify/services/dify.service.ts:335-341 | the matcher misses nothing: wherever `[caption](url)` is written with both groups on one line and no `)` in the url, the regex tried there matches |
| Transcoder.MatchIsMarkup | src/api/integrations/chatbot/dify/services/dify.service.ts:335 | every match is such markup, written where the match starts or right after its leading `!` |
| Transcoder.NextMatch | src/api/integrations/chatbot/dify/services/dify.service.ts:341 | definition of `regex.exec` from `lastIndex`: the first position from `lastIndex` on where the regex matches |
| Transcoder.NextMatchIsLeftmost | src/api/integrations/chatbot/dify/services/dify.service.ts:341 | `regex.exec` from `lastIndex` finds a match, and no match starts between `lastIndex` and it; when it finds none, no match starts anywhere after `lastIndex` |
| Transcoder.NextMatchFindsMarkup | src/api/integrations/chatbot/dify/services/dify.service.ts:341 | the scan finds a match no later than the first `[caption](url)` written at or after `lastIndex` |
| Transcoder.TranscodeFrom | src/api/integrations/chatbot/dify/services/dify.service.ts:335-353 | definition of the parts: the trimmed text before each match, the match's caption and url, and the trimmed tail |
| Transcoder.TranscodeCovers | src/api/integrations/chatbot/dify/services/dify.service.ts:335-353 | the parts come from pieces that concatenate to the reply, so no character is claimed twice and order is kept; each text part is its piece trimmed, each media part is its piece's caption and url |
| Transcoder.NoReferenceOnePart | src/api/integrations/chatbot/dify/services/dify.service.ts:351-353 | a non-empty reply with no reference is one text part, the trimmed reply; an empty reply gives no parts |
| Transcoder.NoMarkupOnePart | src/api/integrations/chatbot/dify/services/dify.service.ts:335-353 | a non-empty reply in which no `[caption](url)` is written is one text part, the trimmed reply; an empty reply gives no parts |
| Transcoder.ScanAdvances | src/api/integrations/chatbot/dify/services/dify.service.ts:341-349 | one turn of the `while` loop keeps "parts pushed, followed by what the scan still yields, is the whole transcoding" |
| Transcoder.ScanEnds | src/api/integrations/chatbot/dify/services/dify.service.ts:351-353 | after the last match, the trimmed tail, if any, completes the transcoding |
| Transcoder.ParseReply | src/api/integrations/chatbot/dify/services/dify.service.ts:335-353 | the scanning loop builds exactly the transcoding of the reply |
| Transcoder.DeliveredAppend | src/api/integrations/chatbot/dify/services/dify.service.ts:355-379 | delivering two runs of parts sends the first run's messages, then the second's |
| Transcoder.DeliveredIsNonempty | src/api/integrations/chatbot/dify/services/dify.service.ts:355-379 | no empty text or url-less image is ever sent, and every message goes to one number with one delay |
| Transcoder.DeliveredKeepsNonemptyParts | src/api/integrations/chatbot/dify/services/dify.service.ts:355-379 | a list of sendable parts becomes one message per part, in order |
| Transcoder.DeliverPart | src/api/integrations/chatbot/dify/services/dify.service.ts:356-378 | a part becomes one message when it has something to send (`if (item.text)`, `if (item.url)`) and none otherwise |
| Transcoder.Delivered | src/api/integrations/chatbot/dify/services/dify.service.ts:355-379 | definition of the loop's output: each part's messages, in part order |
| Transcoder.SendableParts | src/api/integrations/chatbot/dify/services/dify.service.ts:356-378 | the parts with something to send, in order: each one is sendable |
| Transcoder.DeliveredSkipsEmptyParts | src/api/integrations/chatbot/dify/services/dify.service.ts:355-379 | any list of parts sends exactly what its sendable parts send |
| Transcoder.DeliveredIsSendableParts | src/api/integrations/chatbot/dify/services/dify.service.ts:355-379 | any list of parts sends one message per sendable part, in order, and nothing else |
| Transcoder.BlankReplySendsNothing | src/api/integrations/chatbot/dify/services/dify.service.ts:351-379 | a reply of white space only sends nothing |
| Transcoder.Number | src/api/integrations/chatbot/dify/services/dify.service.ts:359 | the recipient is the prefix of `remoteJid` before its first `@`, or all of it |
| Transcoder.Delay | src/api/integrations/chatbot/dify/services/dify.service.ts:360 | the delay is `delayMessage` when it is set (non-zero), and 1000 otherwise; it is never zero |
| Dispatch.IsImageMessage | src/api/integrations/chatbot/dify/services/dify.service.ts:40-42 | a message is an image message exactly when `imageMessage` occurs in it at some offset; such a message is at least 12 characters long |
| Dispatch.ImagePayload | src/api/integrations/chatbot/dify/services/dify.service.ts:81-92 | the split fails (TypeError) exactly when the content has no pipe; otherwise the url has neither `?` nor a pipe, and the query is never empty |
| Dispatch.ImageFromThreeFields | src/api/integrations/chatbot/dify/services/dify.service.ts:82-91 | with two or more pipes, the url is the second field cut at its first `?`, and the query is the third field, or the whole content when that field is empty |
| Dispatch.ImageFromTwoFields | src/api/integrations/chatbot/dify/services/dify.service.ts:82-91 | with exactly one pipe, the url is the second field cut at `?`, and the query is the whole content |
| Dispatch.BuildRequest | src/api/integrations/chatbot/dify/services/dify.service.ts:63-298 | building fails exactly for an image message without a pipe; endpoint, `user` and push name per mode; streaming exactly for the agent; query in `inputs` exactly for completion and workflow; a conversation id exactly for a non-workflow mode off the sentinel, and then the stored `sessionId`; for an image message the file url and query of the image split, otherwise the query is the content unchanged |
| Dispatch.RequestConversation | src/api/integrations/chatbot/dify/services/dify.service.ts:77 | definition of the `conversation_id` field: absent for workflow and over the sentinel, the stored `sessionId` otherwise |
| Dispatch.EstablishedConversationIsKept | src/api/integrations/chatbot/dify/services/dify.service.ts:77-118 | chat and completion send `conversation_id` exactly when one is established; they keep it whatever the reply says, and adopt the reply's id over the sentinel |
| Dispatch.SessionIdWrite | src/api/integrations/chatbot/dify/services/dify.service.ts:118 | definition of the `sessionId` field of the post-reply update, per mode (`undefined` leaves the stored value) |
| Dispatch.NextSessionId | src/api/integrations/chatbot/dify/services/dify.service.ts:118 | definition of the stored `sessionId` after one successful reply |
| Dispatch.ConversationsSent | src/api/integrations/chatbot/dify/services/dify.service.ts:77 | a run of replies sends one conversation per request |
| Dispatch.EstablishedIsStable | src/api/integrations/chatbot/dify/services/dify.service.ts:111-120 | once established, a chat or completion conversation is carried by every later request and never changes |
| Dispatch.FirstIdIsAdopted | src/api/integrations/chatbot/dify/services/dify.service.ts:111-120 | from the sentinel, no conversation is sent until a reply brings an id; that id is adopted, and every later request carries it |
| Dispatch.WorkflowIgnoresConversations | src/api/integrations/chatbot/dify/services/dify.service.ts:272-324 | workflow never sends a conversation and never changes `sessionId` |
| Dispatch.AgentKeepsLastId | src/api/integrations/chatbot/dify/services/dify.service.ts:253-262 | the agent overwrites `sessionId` with every captured id; the stored id is the last one captured, or the old value if none was |
| Dispatch.SessionAfterSnoc | src/api/integrations/chatbot/dify/services/dify.service.ts:111-120 | one more successful reply applies the continuity rule once more |
| Stream.StripDataPrefix | src/api/integrations/chatbot/dify/services/dify.service.ts:231 | definition of `replace(/^data:\s*/, '')` |
| Stream.StripDataPrefixFacts | src/api/integrations/chatbot/dify/services/dify.service.ts:231 | `replace(/^data:\s*/, '')` removes exactly the prefix and the white space after it, and leaves other chunks unchanged |
| Stream.AgentEvents | src/api/integrations/chatbot/dify/services/dify.service.ts:227-243 | only `agent_message` events are kept, at most one per chunk |
| Stream.StreamAppend | src/api/integrations/chatbot/dify/services/dify.service.ts:227-243 | a stream in two pieces gives their answers concatenated, and the second piece's conversation id only when the first had none |
| Stream.IgnoredChunk | src/api/integrations/chatbot/dify/services/dify.service.ts:230-242 | a chunk that does not parse, or is another event kind, changes neither accumulator |
| Stream.KeptChunk | src/api/integrations/chatbot/dify/services/dify.service.ts:235-239 | an `agent_message` appends its answer, and supplies the conversation id only while none has been seen |
| Stream.AggregateAgentStream | src/api/integrations/chatbot/dify/services/dify.service.ts:221-248 | the `data` handler run over all chunks leaves the stream's answer and first conversation id |
| Sessions.Decide | src/api/integrations/chatbot/dify/services/dify.service.ts:416-505 | the gate starts a session exactly when there is none |
| Sessions.GateOrder | src/api/integrations/chatbot/dify/services/dify.service.ts:416-456 | a closed session is ignored whatever else holds; an open one never is; an expired open one restarts; an absent one starts, even for empty content |
| Sessions.Expired | src/api/integrations/chatbot/dify/services/dify.service.ts:420-429 | definition of the expiry test: whole minutes since the last update, compared with `expire` |
| Sessions.IsFinish | src/api/integrations/chatbot/dify/services/dify.service.ts:484 | definition of the finish test: the lowered message equals the lowered keyword |
| Sessions.ExpiredIff | src/api/integrations/chatbot/dify/services/dify.service.ts:420-429 | expired exactly when `expire > 0` and at least `expire + 1` whole minutes have passed |
| Sessions.ExpiryBoundary | src/api/integrations/chatbot/dify/services/dify.service.ts:427-429 | exactly `expire` minutes, or one millisecond short of `expire + 1` minutes, is not expired; `expire + 1` minutes is |
| Sessions.FinishIgnoresCase | src/api/integrations/chatbot/dify/services/dify.service.ts:484 | the finish keyword matches however either side is cased, and only messages of its exact length (no trimming) |
| Sessions.NewSession | src/api/integrations/chatbot/dify/services/dify.service.ts:22-31 | a new record is open, not waiting, and has the sentinel `sessionId` |
| Sessions.Apply | src/api/integrations/chatbot/dify/services/dify.service.ts:111-120 | an update writes the fields it is given and keeps the others, and never changes the identity fields |
| Sessions.UpdateRecord | src/api/integrations/chatbot/dify/services/dify.service.ts:458-466 | an update fails exactly for a missing id; otherwise it rewrites that record alone |
| Sessions.DeleteRecords | src/api/integrations/chatbot/dify/services/dify.service.ts:440-445 | `deleteMany` keeps exactly the records of other bots or users, unchanged |
| Sessions.StoreKeepsWellFormed | src/api/integrations/chatbot/dify/services/dify.service.ts:22-31 | create, update and delete keep every record filed under its own id, below the next id |
| Service.ReadReply | src/api/integrations/chatbot/dify/services/dify.service.ts:106-107 | a failed request has no answer; the agent has an answer exactly for a stream, and it is the stream fold; another mode has one exactly for a blocking body, and it is that body |
| Service.SendToBot | src/api/integrations/chatbot/dify/services/dify.service.ts:53-332 | definition of `sendMessageToBot` on the state: post, read the reply, deliver, update |
| Service.StartSession | src/api/integrations/chatbot/dify/services/dify.service.ts:384-405 | definition of `initNewSession` on the state |
| Service.ProcessTurn | src/api/integrations/chatbot/dify/services/dify.service.ts:407-508 | definition of `processDify` on the state, one branch per gate decision |
| Service.AfterRefresh | src/api/integrations/chatbot/dify/services/dify.service.ts:468-507 | definition of the steps after the refresh |
| Service.DifyService.constructor | src/api/integrations/chatbot/dify/services/dify.service.ts:11-16 | the service starts with an empty store and nothing sent or posted |
| Service.DifyService.CreateNewSession | src/api/integrations/chatbot/dify/services/dify.service.ts:20-38 | adds one fresh record under the next id, which was unused, changes nothing else, and keeps the store well formed |
| Service.DifyService.UpdateSession | src/api/integrations/chatbot/dify/services/dify.service.ts:111-120 | reports failure exactly for a missing record; otherwise rewrites that record alone; keeps the store well formed |
| Service.DifyService.DeleteSessions | src/api/integrations/chatbot/dify/services/dify.service.ts:440-445 | removes exactly the records of one bot and one user, and keeps the store well formed |
| Service.DifyService.SendMessageWhatsApp | src/api/integrations/chatbot/dify/services/dify.service.ts:334-382 | appends to the sent messages exactly the delivery of the transcoded reply, and changes nothing else |
| Service.DifyService.DeliverParts | src/api/integrations/chatbot/dify/services/dify.service.ts:355-379 | the delivery loop sends each part's messages in order |
| Service.DifyService.SendMessageToBot | src/api/integrations/chatbot/dify/services/dify.service.ts:53-332 | leaves exactly the state `SendToBot` describes, and keeps the store well formed |
| Service.DifyService.InitNewSession | src/api/integrations/chatbot/dify/services/dify.service.ts:384-405 | creates a record and dispatches with it (`StartSession`), keeping the store well formed |
| Service.DifyService.ProcessDify | src/api/integrations/chatbot/dify/services/dify.service.ts:407-508 | leaves exactly the state `ProcessTurn` describes, and keeps the store well formed |
| Service.DifyService.HandleOpenSession | src/api/integrations/chatbot/dify/services/dify.service.ts:468-507 | what follows the refresh: fallback, finish keyword, or dispatch (`AfterRefresh`), keeping the store well formed |
| Turns.SendToBotEffects | src/api/integrations/chatbot/dify/services/dify.service.ts:53-332 | posts the request when it can be built; with a usable reply, delivers it and rewrites the session to open, awaiting the user, with the mode's conversation; never creates, removes or touches another record |
| Turns.ClosedSessionIsIgnored | src/api/integrations/chatbot/dify/services/dify.service.ts:416-418 | a session that is not open leaves everything unchanged |
| Turns.AbsentSessionStarts | src/api/integrations/chatbot/dify/services/dify.service.ts:453-456 | with no session, a new open record for the user is created and other records are untouched; the message (even an empty one) is posted as the first of a conversation, so a non-image message goes with its content and no conversation id |
| Turns.ExpiredSessionRestarts | src/api/integrations/chatbot/dify/services/dify.service.ts:420-450 | an expired session is closed (`keepOpen`) or every record of the user is deleted; a new record is created, and the message is posted as the first of a conversation (sentinel `sessionId`) |
| Turns.ExpiredCloseAborts | src/api/integrations/chatbot/dify/services/dify.service.ts:431-438 | an expired session to be kept whose record has vanished: closing it throws and nothing changes |
| Turns.MissingRecordAborts | src/api/integrations/chatbot/dify/services/dify.service.ts:458-466 | when the refresh finds no record, the call ends with nothing changed |
| Turns.OpenSessionIsRefreshed | src/api/integrations/chatbot/dify/services/dify.service.ts:458-466 | an open, unexpired session is first refreshed to open and not waiting |
| Turns.EmptyMessageFallsBack | src/api/integrations/chatbot/dify/services/dify.service.ts:468-482 | an empty message posts nothing, sends the fallback text if one is set, and leaves the session open and not waiting |
| Turns.FinishKeywordEnds | src/api/integrations/chatbot/dify/services/dify.service.ts:484-503 | the finish keyword posts and sends nothing; the session is closed, or all records of the user are removed |
| Turns.DispatchAwaitsUser | src/api/integrations/chatbot/dify/services/dify.service.ts:505-507 | any other message is posted; a usable reply is delivered, and the session ends open and awaiting the user, with the conversation the continuity rule gives |
| Turns.ProcessTurnKeepsWellFormed | src/api/integrations/chatbot/dify/services/dify.service.ts:407-508 | every call keeps the store well formed, and record ids never go back |
| Turns.AfterRefreshKeepsWellFormed | src/api/integrations/chatbot/dify/services/dify.service.ts:468-507 | the steps after the refresh keep the store well formed |
| Turns.StartKeepsWellFormed | src/api/integrations/chatbot/dify/services/dify.service.ts:384-405 | starting a session keeps the store well formed |

## Left out

- Persistence is an in-memory map from record id to record. Prisma's own behaviour is
  out: transactions, the database, and generated ids other than "the next one".
- The store is keyed by record id, not by (bot, user). With `keepOpen` the expiry
  path closes the old record and creates a new one for the same user. Two records of
  one pair can therefore exist, and `deleteMany` removes all of them.
- Every store write refreshes `updatedAt` (Prisma's `@updatedAt`). All writes of one
  call share one instant, `now`; `Date.now()` is a parameter.
- Service.DifyService.CreateNewSession: the failure path of `create` (caught and
  logged, after which `initNewSession` reads `session` from `undefined` and throws)
  is not modelled; creation always succeeds.
- HTTP is out: axios, bearer headers, the JSON wire format, and the configuration
  strings in `inputs` (`instanceName`, server URL, API key). A request is a datatype;
  the reply is an input. A failed or mismatched reply (`Reply.Failed`, or a body of
  the wrong shape) stops `sendMessageToBot` after the post, as the catch at 328-331
  does.
- Service.ReadReply: a blocking body without `answer` is represented by
  `Reply.Failed`, not by a body of its own. In the source, `message.length` on the
  undefined answer throws inside `sendMessageWhatsApp` (line 351). The catch at
  328-331 takes it: the request was posted, nothing is sent, the session is not
  updated. That is the `Failed` outcome. A body without `conversation_id` is
  modelled, as `Answered(text, None)`.
- Stream.AgentEvents: an `agent_message` without `answer` appends the text
  `undefined` in the source; the model's events always carry a string answer.
- The stream is folded inside the call. In the source, the `end` handler runs after
  `sendMessageToBot` has returned, and its update is outside the `try`. The `error`
  handler and a stream that never ends are out; a stream that fails is `Reply.Failed`.
- `JSON.parse` and `isJSON` are out: parsing a chunk is the parameter `parse` of the
  service.
- Presence updates, telemetry, logging and console output are out. `textMessage` and
  `mediaMessage` are recorded as the `sent` trace of `Action` values.
- Transcoder.MatchAt: the regex is read without backtracking, as "`[`, the caption up
  to the first `](` on the line, the url up to the first `)` on the line".
  `Transcoder.NoBacktrackingNeeded` shows that backtracking to a later `](` on the
  same line can never succeed where the first one failed.
- Text.Lower: `toLowerCase` is modelled on ASCII letters only, not on the full
  Unicode case mapping.
- Service.DifyService.HandleOpenSession is not a method of the source. It is the tail
  of `processDify` after the refresh, split out as a method of its own.
- Service.DifyService.DeliverParts is not a method of the source. It is the `for`
  loop of `sendMessageWhatsApp`, split out as a method of its own.
