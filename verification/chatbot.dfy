/** The legal assistant chatbot's history (`ChatBotUseCase` over
    `ChatBotMessageRepository`). The reply generator is a parameter; the
    store is the message collection in insertion order. */
module ChatBot {

  import opened Outcome
  import opened Records
  import Validators
  import Pagination

  /** A stored chatbot message; `createdAt` is epoch milliseconds. */
  datatype BotMessage = BotMessage(id: string, clientId: string, message: string, isBotMessage: bool, createdAt: int)

  /** A chatbot call: the collection it leaves behind and its result. */
  datatype BotStep<T> = BotStep(store: seq<BotMessage>, result: Result<T>)

  /** How many messages a client's history shows. */
  const HistoryLimit: nat := 40

  const ValidationFailed: string := "ChatbotMessage validation failed"

  /** `create`: the schema requires a non-empty message text. */
  function Insert(store: seq<BotMessage>, m: BotMessage): (r: Result<seq<BotMessage>>)
    ensures r.Ok? <==> m.message != ""
    ensures r.Err? ==> r.error == Plain(ValidationFailed)
    ensures r.Ok? ==> r.value == store + [m]
  {
    if m.message == "" then Err(Plain(ValidationFailed)) else Ok(store + [m])
  }

  /** `createMessage`: both fields must be given and the client id be an
      id; the reply is generated before anything is stored, so a failed
      reply stores nothing. The client's message is stored, then the bot's;
      only the bot's is returned. */
  function CreateMessage(store: seq<BotMessage>, clientId: Option<string>, clientMessage: Option<string>,
                         generate: string -> Result<string>, clientMessageId: string, botMessageId: string, now: int)
    : (r: BotStep<seq<BotMessage>>)
    ensures clientMessage.None? || clientId.None? ==> r == BotStep(store, Err(Custom(BadRequest, Validators.RequiredMessage)))
    ensures clientMessage.Some? && clientId.Some? && !Validators.IsIdText(clientId.value) ==>
              r == BotStep(store, Err(Custom(BadRequest, Validators.IdMessage)))
    ensures clientMessage.Some? && clientId.Some? && Validators.IsIdText(clientId.value) && generate(clientMessage.value).Err? ==>
              r == BotStep(store, Err(generate(clientMessage.value).error))
    ensures r.result.Ok? <==>
              (clientMessage.Some? && clientId.Some? && Validators.IsIdText(clientId.value) && clientMessage.value != "" &&
               generate(clientMessage.value).Ok? && generate(clientMessage.value).value != "")
    ensures r.result.Ok? ==>
              && r.result.value == [BotMessage(botMessageId, clientId.value, generate(clientMessage.value).value, true, now)]
              && r.store == store + [BotMessage(clientMessageId, clientId.value, clientMessage.value, false, now)] + r.result.value
    ensures |store| <= |r.store| && r.store[..|store|] == store
  {
    var defined := [clientMessage.Some?, clientId.Some?];
    var required := Validators.ValidateRequiredFields(defined);
    if required.Fail? then BotStep(store, Err(required.error))
    else
      assert defined[0] && defined[1];
      match Validators.ValidateIdFormat(clientId.value)
      case Fail(e) => BotStep(store, Err(e))
      case Pass =>
        match generate(clientMessage.value)
        case Err(e) => BotStep(store, Err(e))
        case Ok(reply) =>
          var asked := BotMessage(clientMessageId, clientId.value, clientMessage.value, false, now);
          match Insert(store, asked)
          case Err(e) => BotStep(store, Err(e))
          case Ok(withAsked) =>
            var answer := BotMessage(botMessageId, clientId.value, reply, true, now);
            match Insert(withAsked, answer)
            case Err(e) => BotStep(withAsked, Err(e))
            case Ok(withAnswer) => BotStep(withAnswer, Ok([answer]))
  }

  /** Whether a message belongs to the client's history. */
  predicate OfClient(m: BotMessage, clientId: string) {
    m.clientId == clientId
  }

  /** The negated creation time: ascending in it is newest first. */
  function Newest(m: BotMessage): int {
    -m.createdAt
  }

  /** `getMessagesByClientId(clientId, limit)`: the client's messages,
      newest first, at most `limit` of them. */
  function GetMessagesByClientId(store: seq<BotMessage>, clientId: string, limit: nat): (r: seq<BotMessage>)
    ensures |r| == Pagination.Min(limit, Count(store, (m: BotMessage) => OfClient(m, clientId)))
    ensures forall i :: 0 <= i < |r| ==> r[i] in store && OfClient(r[i], clientId)
    ensures Descending(r, (m: BotMessage) => m.createdAt)
    ensures forall i, m :: 0 <= i < |r| && m in store && OfClient(m, clientId) ==> m in r || m.createdAt <= r[i].createdAt
  {
    var mine := Filter(store, (m: BotMessage) => OfClient(m, clientId));
    var sorted := SortBy(mine, Newest);
    var r := Pagination.Window(sorted, 0, limit);
    NewestWindow(store, clientId, mine, sorted, r);
    r
  }

  /** The first `|r|` messages of the client's history sorted newest first
      are newer than every message left out. */
  lemma NewestWindow(store: seq<BotMessage>, clientId: string, mine: seq<BotMessage>, sorted: seq<BotMessage>, r: seq<BotMessage>)
    requires mine == Filter(store, (m: BotMessage) => OfClient(m, clientId))
    requires Ascending(sorted, Newest) && multiset(sorted) == multiset(mine)
    requires |r| <= |sorted| && forall i :: 0 <= i < |r| ==> r[i] == sorted[i]
    ensures forall i :: 0 <= i < |r| ==> r[i] in store && OfClient(r[i], clientId)
    ensures Descending(r, (m: BotMessage) => m.createdAt)
    ensures forall i, m :: 0 <= i < |r| && m in store && OfClient(m, clientId) ==> m in r || m.createdAt <= r[i].createdAt
  {
    forall i | 0 <= i < |r| ensures r[i] in store && OfClient(r[i], clientId) {
      assert r[i] in multiset(sorted);
      assert r[i] in mine;
    }
    forall i, j | 0 <= i < j < |r| ensures r[j].createdAt <= r[i].createdAt {
      assert Newest(sorted[i]) <= Newest(sorted[j]);
    }
    forall i, m | 0 <= i < |r| && m in store && OfClient(m, clientId) ensures m in r || m.createdAt <= r[i].createdAt {
      assert m in mine;
      assert m in multiset(sorted);
      var k :| 0 <= k < |sorted| && sorted[k] == m;
      if k < |r| {
        assert r[k] == m;
      } else {
        assert Newest(sorted[i]) <= Newest(sorted[k]);
      }
    }
  }

  /** The ids of messages, in order. */
  function IdsOf(ms: seq<BotMessage>): (ids: seq<string>)
    ensures |ids| == |ms| && forall k :: 0 <= k < |ms| ==> ids[k] == ms[k].id
  {
    if |ms| == 0 then [] else [ms[0].id] + IdsOf(ms[1..])
  }

  /** `deleteNotInId(ids)`: every message whose id is not listed goes,
      whoever's it is. */
  function DeleteNotInId(store: seq<BotMessage>, ids: seq<string>): (r: seq<BotMessage>)
    ensures forall i :: 0 <= i < |r| ==> r[i] in store && r[i].id in ids
    ensures forall i :: 0 <= i < |store| && store[i].id in ids ==> store[i] in r
  {
    Filter(store, (m: BotMessage) => m.id in ids)
  }

  /** `getMessages` as written: the client id must be an id; at most 40 of
      the client's newest messages are fetched, and the history is pruned
      only when more than 40 came back, which cannot happen. */
  function GetMessages(store: seq<BotMessage>, clientId: string): (r: BotStep<seq<BotMessage>>)
    ensures r.result.Err? <==> !Validators.IsIdText(clientId)
    ensures r.result.Err? ==> r.result.error == Custom(BadRequest, Validators.IdMessage)
    ensures r.result.Ok? ==> r.result.value == GetMessagesByClientId(store, clientId, HistoryLimit)
    ensures r.store == store
  {
    match Validators.ValidateIdFormat(clientId)
    case Fail(e) => BotStep(store, Err(e))
    case Pass =>
      var messages := GetMessagesByClientId(store, clientId, HistoryLimit);
      if |messages| > HistoryLimit then
        BotStep(DeleteNotInId(store, IdsOf(messages)), Ok(messages))
      else
        BotStep(store, Ok(messages))
  }

  /** A client with more than 40 messages keeps all of them after reading
      the history: nothing is ever pruned. */
  lemma HistoryNeverPruned(store: seq<BotMessage>, clientId: string)
    requires Validators.IsIdText(clientId)
    requires Count(store, (m: BotMessage) => OfClient(m, clientId)) > HistoryLimit
    ensures var r := GetMessages(store, clientId);
            r.result.Ok? && |r.result.value| == HistoryLimit &&
            Count(r.store, (m: BotMessage) => OfClient(m, clientId)) > HistoryLimit
  {
  }

  /** Pruning as the history evidently means it: the client's messages not
      among `ids` go; every other client's messages stay. */
  function PruneClient(store: seq<BotMessage>, clientId: string, ids: seq<string>): (r: seq<BotMessage>)
    ensures forall i :: 0 <= i < |r| ==> r[i] in store && (OfClient(r[i], clientId) ==> r[i].id in ids)
    ensures forall i :: 0 <= i < |store| && (!OfClient(store[i], clientId) || store[i].id in ids) ==> store[i] in r
    ensures IsSubsequence(r, store)
  {
    var keep := (m: BotMessage) => !OfClient(m, clientId) || m.id in ids;
    FilterIsSubsequence(store, keep);
    Filter(store, keep)
  }

  /** `getMessages` with retention working: the client's newest 40 are
      shown and every older message of that client is deleted, while other
      clients' histories are left alone. */
  function GetMessagesRetained(store: seq<BotMessage>, clientId: string): (r: BotStep<seq<BotMessage>>)
    ensures r.result.Err? <==> !Validators.IsIdText(clientId)
    ensures r.result.Err? ==> r.store == store && r.result.error == Custom(BadRequest, Validators.IdMessage)
    ensures r.result.Ok? ==> r.result.value == GetMessages(store, clientId).result.value
    ensures r.result.Ok? ==>
              && (forall i :: 0 <= i < |r.store| && OfClient(r.store[i], clientId) ==> r.store[i].id in IdsOf(r.result.value))
              && (forall i :: 0 <= i < |store| && !OfClient(store[i], clientId) ==> store[i] in r.store)
              && (forall i :: 0 <= i < |r.result.value| ==> r.result.value[i] in r.store)
              && IsSubsequence(r.store, store)
  {
    match Validators.ValidateIdFormat(clientId)
    case Fail(e) => BotStep(store, Err(e))
    case Pass =>
      var messages := GetMessagesByClientId(store, clientId, HistoryLimit);
      var ids := IdsOf(messages);
      var kept := PruneClient(store, clientId, ids);
      ShownKept(store, clientId, messages, kept);
      BotStep(kept, Ok(messages))
  }

  /** The messages shown survive the pruning. */
  lemma ShownKept(store: seq<BotMessage>, clientId: string, messages: seq<BotMessage>, kept: seq<BotMessage>)
    requires forall i :: 0 <= i < |messages| ==> messages[i] in store
    requires kept == PruneClient(store, clientId, IdsOf(messages))
    ensures forall i :: 0 <= i < |messages| ==> messages[i] in kept
  {
    var ids := IdsOf(messages);
    forall i | 0 <= i < |messages| ensures messages[i] in kept {
      assert ids[i] == messages[i].id;
      var j :| 0 <= j < |store| && store[j] == messages[i];
    }
  }
}
