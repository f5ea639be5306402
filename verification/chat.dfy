/** Chats between a client and a lawyer (`GetChatUseCase`,
    `CreateChatUseCase`, `ChatRepository` over the `Chat` schema).

    The chat schema requires all four of the names and profile pictures
    and keeps one chat per (lawyer, client) pair. The message collection is
    not part of this model: the messages of a chat, the unread counts per
    chat and the write that marks messages received are parameters. */
module Chat {

  import opened Outcome
  import opened Records
  import Validators
  import ClientStore
  import LawyerStore
  import Video
  import opened Accounts

  /** A stored chat. Mongoose's `required` refuses a missing or empty
      string, so a stored chat has all four texts. */
  datatype ChatDoc = ChatDoc(
    id: string,
    lawyerId: string,
    clientId: string,
    lawyerName: Option<string>,
    clientName: Option<string>,
    lawyerProfile: Option<string>,
    clientProfile: Option<string>,
    updatedAt: int)

  /** A stored message. */
  datatype Message = Message(id: string, chatId: string, senderId: string, receiverId: string, message: string, isReceived: bool)

  /** The chat and message collections. */
  datatype Chats = Chats(chats: seq<ChatDoc>, messages: seq<Message>)

  /** A chat call: the collections it leaves behind and its result. */
  datatype ChatStep<T> = ChatStep(store: Chats, result: Result<T>)

  const ChatValidationFailed: string := "Chat validation failed"
  const ChatDuplicateKey: string := "E11000 duplicate key error collection: chats index: lawyerId_1_clientId_1 dup key"
  const ClientNotFound: string := "Invalid client id"
  const LawyerNotFound: string := "Invalid lawyer id"
  const ClientIncomplete: string := "Client profile or name is missing"
  const ChatNotFound: string := "Not found"

  /** The schema's required fields are all there. */
  predicate Complete(c: ChatDoc) {
    Truthy(c.lawyerName) && Truthy(c.clientName) && Truthy(c.lawyerProfile) && Truthy(c.clientProfile)
  }

  predicate SamePair(c: ChatDoc, lawyerId: string, clientId: string) {
    c.lawyerId == lawyerId && c.clientId == clientId
  }

  /** The unique index on (lawyerId, clientId). */
  predicate UniquePairs(chats: seq<ChatDoc>) {
    forall i, j :: 0 <= i < j < |chats| ==> !SamePair(chats[j], chats[i].lawyerId, chats[i].clientId)
  }

  /** `findByLawyerAndClientId`: the chat of that pair. */
  function FindByPair(chats: seq<ChatDoc>, lawyerId: string, clientId: string): (r: Option<ChatDoc>)
    ensures r.None? <==> forall i :: 0 <= i < |chats| ==> !SamePair(chats[i], lawyerId, clientId)
    ensures r.Some? ==> r.value in chats && SamePair(r.value, lawyerId, clientId)
  {
    var i := FirstIndex(chats, (c: ChatDoc) => SamePair(c, lawyerId, clientId));
    if i < |chats| then Some(chats[i]) else None
  }

  /** `findById`: the chat with that id. */
  function FindById(chats: seq<ChatDoc>, id: string): (r: Option<ChatDoc>)
    ensures r.None? <==> forall i :: 0 <= i < |chats| ==> chats[i].id != id
    ensures r.Some? ==> r.value in chats && r.value.id == id
  {
    var i := FirstIndex(chats, (c: ChatDoc) => c.id == id);
    if i < |chats| then Some(chats[i]) else None
  }

  /** `create`: the schema's checks, then the unique index. */
  function InsertChat(chats: seq<ChatDoc>, doc: ChatDoc): (r: Result<seq<ChatDoc>>)
    ensures !Complete(doc) ==> r == Err(Plain(ChatValidationFailed))
    ensures Complete(doc) && FindByPair(chats, doc.lawyerId, doc.clientId).Some? ==> r == Err(Plain(ChatDuplicateKey))
    ensures r.Ok? <==> Complete(doc) && FindByPair(chats, doc.lawyerId, doc.clientId).None?
    ensures r.Ok? ==> r.value == chats + [doc]
    ensures r.Ok? && UniquePairs(chats) ==> UniquePairs(r.value)
  {
    if !Complete(doc) then Err(Plain(ChatValidationFailed))
    else if FindByPair(chats, doc.lawyerId, doc.clientId).Some? then Err(Plain(ChatDuplicateKey))
    else Ok(chats + [doc])
  }

  // ---------------------------------------------------------------------
  // Creating chats and messages.

  /** `createChat`: both ids must be given and be ids (lawyer first); a
      missing client gives 404 before a missing lawyer does, and a client
      without a profile picture or a name gives 400. The chat takes the
      client's name and picture and the lawyer's name and profile image.
      When the pair already has a chat the unique index refuses the new one
      and the existing chat's id is the answer; any other refusal
      propagates. `findLawyer` is the lawyer repository's `findById`. */
  function CreateChat(st: Chats, clients: ClientStore.Clients, findLawyer: string -> Option<Account>,
                      lawyerId: Option<string>, clientId: Option<string>, newId: string, now: int): (r: ChatStep<string>)
    ensures lawyerId.None? || clientId.None? ==> r == ChatStep(st, Err(Custom(BadRequest, Validators.RequiredMessage)))
    ensures r.result.Err? ==> r.store == st
    ensures r.store.messages == st.messages
    ensures r.store != st ==>
              (ChatRequestGood(clients, findLawyer, lawyerId, clientId) &&
               r.store.chats == st.chats + [NewChat(clients, findLawyer, lawyerId.value, clientId.value, newId, now)])
    ensures UniquePairs(st.chats) ==> UniquePairs(r.store.chats)
    ensures r.result.Ok? ==>
              (ChatRequestGood(clients, findLawyer, lawyerId, clientId) &&
               FindByPair(r.store.chats, lawyerId.value, clientId.value).Some? &&
               (UniquePairs(st.chats) ==> FindByPair(r.store.chats, lawyerId.value, clientId.value).value.id == r.result.value))
  {
    var defined := [lawyerId.Some?, clientId.Some?];
    var required := Validators.ValidateRequiredFields(defined);
    if required.Fail? then ChatStep(st, Err(required.error))
    else
      assert defined[0] && defined[1];
      match Then(Validators.ValidateIdFormat(lawyerId.value), Validators.ValidateIdFormat(clientId.value))
      case Fail(e) => ChatStep(st, Err(e))
      case Pass =>
      var client := ClientStore.FindById(clients, clientId.value);
      var lawyer := findLawyer(lawyerId.value);
      if client.None? then ChatStep(st, Err(Custom(NotFound, ClientNotFound)))
      else if lawyer.None? then ChatStep(st, Err(Custom(NotFound, LawyerNotFound)))
      else if !Truthy(client.value.profile) || !Truthy(client.value.name) then
        ChatStep(st, Err(Custom(BadRequest, ClientIncomplete)))
      else
        var doc := NewChat(clients, findLawyer, lawyerId.value, clientId.value, newId, now);
        match InsertChat(st.chats, doc)
        case Ok(chats) =>
          NewPairFound(st.chats, doc);
          ChatStep(st.(chats := chats), Ok(newId))
        case Err(e) =>
          if e == Plain(ChatDuplicateKey) then
            ChatStep(st, Ok(FindByPair(st.chats, lawyerId.value, clientId.value).value.id))
          else ChatStep(st, Err(e))
  }

  /** The chat `createChat` stores for the pair: the client's name and
      picture, the lawyer's name and profile image. */
  function NewChat(clients: ClientStore.Clients, findLawyer: string -> Option<Account>,
                   lawyerId: string, clientId: string, newId: string, now: int): ChatDoc
    requires ClientStore.FindById(clients, clientId).Some? && findLawyer(lawyerId).Some?
  {
    var client := ClientStore.FindById(clients, clientId).value;
    var lawyer := findLawyer(lawyerId).value;
    ChatDoc(newId, lawyerId, clientId, lawyer.name, client.name, lawyer.profileImage, client.profile, now)
  }

  /** A chat added for a new pair is the one its pair finds, and only
      one. */
  lemma NewPairFound(chats: seq<ChatDoc>, doc: ChatDoc)
    requires FindByPair(chats, doc.lawyerId, doc.clientId).None?
    ensures FindByPair(chats + [doc], doc.lawyerId, doc.clientId) == Some(doc)
  {
    var all := chats + [doc];
    FirstIndexIs(all, (c: ChatDoc) => SamePair(c, doc.lawyerId, doc.clientId), |chats|);
  }

  /** The inputs `createChat` accepts before it writes: ids given and
      well formed, both parties found, the client with a picture and a
      name. */
  predicate ChatRequestGood(clients: ClientStore.Clients, findLawyer: string -> Option<Account>,
                            lawyerId: Option<string>, clientId: Option<string>) {
    && lawyerId.Some? && clientId.Some?
    && Validators.IsIdText(lawyerId.value) && Validators.IsIdText(clientId.value)
    && ClientStore.FindById(clients, clientId.value).Some? && findLawyer(lawyerId.value).Some?
    && Truthy(ClientStore.FindById(clients, clientId.value).value.profile)
    && Truthy(ClientStore.FindById(clients, clientId.value).value.name)
  }

  /** A lawyer record a chat can be made with: a name and a profile
      image. */
  predicate ChatReady(lawyer: Account) {
    Truthy(lawyer.name) && Truthy(lawyer.profileImage)
  }

  /** With a good request and a lawyer the repository returns with its
      name and profile image, `createChat` answers with the pair's chat:
      a new one when the pair has none, the existing one otherwise. */
  lemma CreateChatSucceeds(st: Chats, clients: ClientStore.Clients, findLawyer: string -> Option<Account>,
                           lawyerId: Option<string>, clientId: Option<string>, newId: string, now: int)
    requires ChatRequestGood(clients, findLawyer, lawyerId, clientId)
    requires ChatReady(findLawyer(lawyerId.value).value)
    ensures var r := CreateChat(st, clients, findLawyer, lawyerId, clientId, newId, now);
            && r.result.Ok?
            && (FindByPair(st.chats, lawyerId.value, clientId.value).None? ==> r.result.value == newId && |r.store.chats| == |st.chats| + 1)
            && (FindByPair(st.chats, lawyerId.value, clientId.value).Some? ==>
                  r.store == st && r.result.value == FindByPair(st.chats, lawyerId.value, clientId.value).value.id)
  {
  }

  /** Asking twice for the same pair gives the same chat and writes
      nothing the second time. */
  lemma CreateChatIdempotent(st: Chats, clients: ClientStore.Clients, findLawyer: string -> Option<Account>,
                             lawyerId: Option<string>, clientId: Option<string>, id1: string, id2: string, now1: int, now2: int)
    requires UniquePairs(st.chats)
    requires CreateChat(st, clients, findLawyer, lawyerId, clientId, id1, now1).result.Ok?
    ensures var first := CreateChat(st, clients, findLawyer, lawyerId, clientId, id1, now1);
            var second := CreateChat(first.store, clients, findLawyer, lawyerId, clientId, id2, now2);
            second == ChatStep(first.store, first.result)
  {
    var first := CreateChat(st, clients, findLawyer, lawyerId, clientId, id1, now1);
    assert Complete(NewChat(clients, findLawyer, lawyerId.value, clientId.value, id1, now1));
    CreateChatSucceeds(first.store, clients, findLawyer, lawyerId, clientId, id2, now2);
  }

  /** `createChat` as deployed, over the lawyer repository's `findById`:
      that mapping never passes on the profile image, so the schema refuses
      every new chat and no chat is ever created or found. */
  function CreateChatWithStore(st: Chats, clients: ClientStore.Clients, lawyers: LawyerStore.Lawyers,
                               lawyerId: Option<string>, clientId: Option<string>, newId: string, now: int): (r: ChatStep<string>)
    ensures r.result.Err? && r.store == st
  {
    var r := CreateChat(st, clients, (id: string) => LawyerStore.FindById(lawyers, id), lawyerId, clientId, newId, now);
    assert r.result.Err? by {
      if r.result.Ok? {
        assert r.store == st;
        assert FindByPair(st.chats, lawyerId.value, clientId.value).Some?;
        assert LawyerStore.FindById(lawyers, lawyerId.value).value.profileImage.None?;
      }
    }
    r
  }

  /** `createMessage`: all four fields must be given and the three ids be
      ids; the chat's `updatedAt` becomes now (a chat that does not exist is
      not an error), then the message is stored unread. The new message is
      the answer. */
  function CreateMessage(st: Chats, chatId: Option<string>, receiverId: Option<string>, message: Option<string>,
                         senderId: Option<string>, newId: string, now: int): (r: ChatStep<Message>)
    ensures r.result.Ok? <==>
              (chatId.Some? && receiverId.Some? && message.Some? && senderId.Some? &&
               Validators.IsIdText(chatId.value) && Validators.IsIdText(receiverId.value) && Validators.IsIdText(senderId.value))
    ensures r.result.Err? ==> r.store == st && r.result.error.Custom? && r.result.error.status == BadRequest
    ensures r.result.Ok? ==>
              && r.result.value == Message(newId, chatId.value, senderId.value, receiverId.value, message.value, false)
              && r.store.messages == st.messages + [r.result.value]
              && |r.store.chats| == |st.chats|
              && forall i :: 0 <= i < |st.chats| ==>
                   r.store.chats[i] == if st.chats[i].id == chatId.value then st.chats[i].(updatedAt := now) else st.chats[i]
  {
    var defined := [chatId.Some?, receiverId.Some?, message.Some?, senderId.Some?];
    var required := Validators.ValidateRequiredFields(defined);
    if required.Fail? then ChatStep(st, Err(required.error))
    else
      assert defined[0] && defined[1] && defined[2] && defined[3];
      var ids := [chatId.value, receiverId.value, senderId.value];
      match Validators.ValidateMultipleIds(ids)
      case Fail(e) => ChatStep(st, Err(e))
      case Pass =>
      assert Validators.IsIdText(ids[0]) && Validators.IsIdText(ids[1]) && Validators.IsIdText(ids[2]);
      var m := Message(newId, chatId.value, senderId.value, receiverId.value, message.value, false);
      ChatStep(Chats(Touch(st.chats, chatId.value, now), st.messages + [m]), Ok(m))
  }

  /** `update(chatId, { updatedAt })`: the chat with that id is touched,
      every other one kept. */
  function Touch(chats: seq<ChatDoc>, id: string, now: int): (r: seq<ChatDoc>)
    ensures |r| == |chats|
    ensures forall i :: 0 <= i < |chats| ==> r[i] == if chats[i].id == id then chats[i].(updatedAt := now) else chats[i]
  {
    seq(|chats|, i requires 0 <= i < |chats| => if chats[i].id == id then chats[i].(updatedAt := now) else chats[i])
  }

  // ---------------------------------------------------------------------
  // Reading chats.

  /** `isAuthorizedInChat`: the chat id must be an id; the user may take
      part exactly when the chat exists and the user is its lawyer or its
      client. */
  function IsAuthorizedInChat(chats: seq<ChatDoc>, chatId: string, userId: string): (r: Result<bool>)
    ensures r.Err? <==> !Validators.IsIdText(chatId)
    ensures r.Err? ==> r.error == Custom(BadRequest, Validators.IdMessage)
    ensures r.Ok? && r.value ==> exists c :: c in chats && c.id == chatId && (c.lawyerId == userId || c.clientId == userId)
    ensures r.Ok? && UniqueChatIds(chats) ==>
              (r.value <==> exists c :: c in chats && c.id == chatId && (c.lawyerId == userId || c.clientId == userId))
  {
    match Validators.ValidateIdFormat(chatId)
    case Fail(e) => Err(e)
    case Pass =>
      match FindById(chats, chatId)
      case None => Ok(false)
      case Some(c) =>
        if c.lawyerId == userId then Ok(true)
        else if c.clientId == userId then Ok(true)
        else Ok(false)
  }

  /** Chat ids are the collection's `_id`: no two chats share one. */
  predicate UniqueChatIds(chats: seq<ChatDoc>) {
    forall i, j :: 0 <= i < j < |chats| ==> chats[i].id != chats[j].id
  }

  /** `getMessagesOfChat`: the chat id must be an id and name a chat, else
      404; the answer is the chat with its messages. */
  function GetMessagesOfChat(chats: seq<ChatDoc>, chatId: string, messagesOf: string -> seq<Message>)
    : (r: Result<(ChatDoc, seq<Message>)>)
    ensures !Validators.IsIdText(chatId) ==> r == Err(Custom(BadRequest, Validators.IdMessage))
    ensures Validators.IsIdText(chatId) && (forall i :: 0 <= i < |chats| ==> chats[i].id != chatId) ==>
              r == Err(Custom(NotFound, ChatNotFound))
    ensures r.Ok? ==> r.value.0 in chats && r.value.0.id == chatId && r.value.1 == messagesOf(chatId)
  {
    match Validators.ValidateIdFormat(chatId)
    case Fail(e) => Err(e)
    case Pass =>
      match FindById(chats, chatId)
      case None => Err(Custom(NotFound, ChatNotFound))
      case Some(c) => Ok((c, messagesOf(chatId)))
  }

  /** `markReceived`: both ids must be ids before the write `mark` (the
      message repository's) runs. */
  function MarkReceived<S>(store: S, chatId: string, receiverId: string, mark: (S, string, string) -> S): (r: (S, Check))
    ensures r.1.Pass? <==> Validators.IsIdText(receiverId) && Validators.IsIdText(chatId)
    ensures r.1.Fail? ==> r.0 == store && r.1.error == Custom(BadRequest, Validators.IdMessage)
    ensures r.1.Pass? ==> r.0 == mark(store, receiverId, chatId)
  {
    var ids := [receiverId, chatId];
    match Validators.ValidateMultipleIds(ids)
    case Fail(e) =>
      assert !Validators.IsIdText(ids[0]) || !Validators.IsIdText(ids[1]);
      (store, Fail(e))
    case Pass =>
      assert Validators.IsIdText(ids[0]) && Validators.IsIdText(ids[1]);
      (mark(store, receiverId, chatId), Pass)
  }

  /** `getClientsLawyer`: the clients with a profile picture and a name,
      in store order. */
  function GetClientsLawyer(clients: ClientStore.Clients): (r: ClientStore.Clients)
    ensures forall i :: 0 <= i < |r| ==>
              r[i] in clients && Truthy(r[i].account.profile) && Truthy(r[i].account.name)
    ensures forall i :: 0 <= i < |clients| && Truthy(clients[i].account.profile) && Truthy(clients[i].account.name) ==>
              clients[i] in r
    ensures IsSubsequence(r, clients)
  {
    var keep := (d: ClientStore.ClientDoc) => Truthy(d.account.profile) && Truthy(d.account.name);
    FilterIsSubsequence(clients, keep);
    Filter(clients, keep)
  }

  /** One row of the unread counts grouped by chat. */
  datatype UnreadCount = UnreadCount(chatId: string, count: int)

  /** The `Map` built from the rows: a later row for a chat overwrites an
      earlier one. */
  function UnreadMap(unread: seq<UnreadCount>): (m: map<string, int>)
    ensures forall id :: id in m <==> exists k :: 0 <= k < |unread| && unread[k].chatId == id
    ensures forall id :: id in m ==> exists k :: LastRow(unread, k, id) && m[id] == unread[k].count
    decreases |unread|
  {
    if |unread| == 0 then map[]
    else
      var n := |unread| - 1;
      var before := UnreadMap(unread[..n]);
      EarlierRowsStayLast(unread, unread[..n], before);
      assert LastRow(unread, n, unread[n].chatId);
      before[unread[n].chatId := unread[n].count]
  }

  /** A chat's last row among all but the final row is still its last row
      when the final row is for another chat. */
  lemma EarlierRowsStayLast(unread: seq<UnreadCount>, front: seq<UnreadCount>, before: map<string, int>)
    requires |unread| > 0 && front == unread[..|unread| - 1]
    requires forall id :: id in before ==> exists k :: LastRow(front, k, id) && before[id] == front[k].count
    ensures forall id :: id in before && id != unread[|unread| - 1].chatId ==>
              exists k :: LastRow(unread, k, id) && before[id] == unread[k].count
  {
    var n := |unread| - 1;
    forall id | id in before && id != unread[n].chatId
      ensures exists k :: LastRow(unread, k, id) && before[id] == unread[k].count
    {
      var k :| LastRow(front, k, id) && before[id] == front[k].count;
      assert LastRow(unread, k, id);
    }
  }

  /** Row `k` is the last row for the chat. */
  predicate LastRow(unread: seq<UnreadCount>, k: int, id: string) {
    0 <= k < |unread| && unread[k].chatId == id && forall j :: k < j < |unread| ==> unread[j].chatId != id
  }

  /** A chat as the listings return it: the stored chat and its unread
      count. */
  datatype ChatView = ChatView(chat: ChatDoc, notSeenMessages: int)

  /** `map.get(id) || 0`. */
  function NotSeen(m: map<string, int>, id: string): int {
    if id in m then m[id] else 0
  }

  /** `getChatsWithNotSeenMessages`: every chat, in order, with the count
      of the last row for it, or 0 when it has none. */
  function WithNotSeen(chats: seq<ChatDoc>, unread: seq<UnreadCount>): (r: seq<ChatView>)
    ensures |r| == |chats|
    ensures forall i :: 0 <= i < |chats| ==> r[i].chat == chats[i]
    ensures forall i :: 0 <= i < |chats| ==>
              ((forall k :: 0 <= k < |unread| ==> unread[k].chatId != chats[i].id) ==> r[i].notSeenMessages == 0)
    ensures forall i :: 0 <= i < |chats| && (exists k :: 0 <= k < |unread| && unread[k].chatId == chats[i].id) ==>
              exists k :: LastRow(unread, k, chats[i].id) && r[i].notSeenMessages == unread[k].count
  {
    if |unread| == 0 then
      seq(|chats|, i requires 0 <= i < |chats| => ChatView(chats[i], 0))
    else
      var m := UnreadMap(unread);
      seq(|chats|, i requires 0 <= i < |chats| => ChatView(chats[i], NotSeen(m, chats[i].id)))
  }

  /** Whether a chat is the party's. */
  predicate ChatOf(c: ChatDoc, party: Video.Party, id: string) {
    match party
    case LawyerParty => c.lawyerId == id
    case ClientParty => c.clientId == id
  }

  /** `findAllChatsForClient` / `findAllChatsForLawyer`: the party's chats,
      latest `updatedAt` first. */
  function FindAllChatsFor(chats: seq<ChatDoc>, party: Video.Party, id: string): (r: seq<ChatDoc>)
    ensures forall c :: multiset(r)[c] == if ChatOf(c, party, id) then multiset(chats)[c] else 0
    ensures Descending(r, (c: ChatDoc) => c.updatedAt)
  {
    var keep := (c: ChatDoc) => ChatOf(c, party, id);
    FilterMultiset(chats, keep);
    var r := SortBy(Filter(chats, keep), (c: ChatDoc) => -c.updatedAt);
    NegatedKey(r);
    r
  }

  /** Ascending by the negated time is latest first. */
  lemma NegatedKey(s: seq<ChatDoc>)
    requires Ascending(s, (c: ChatDoc) => -c.updatedAt)
    ensures Descending(s, (c: ChatDoc) => c.updatedAt)
  {
    forall i, j | 0 <= i < j < |s| ensures s[j].updatedAt <= s[i].updatedAt {
      assert -s[i].updatedAt <= -s[j].updatedAt;
    }
  }

  /** `getAllChatsWithClientId` / `getAllChatsWithLawyerId`: the id must be
      an id; the party's chats, latest first, each with its unread count
      among `unread` (the receiver's rows). */
  function GetAllChats(chats: seq<ChatDoc>, party: Video.Party, id: string, unread: seq<UnreadCount>): (r: Result<seq<ChatView>>)
    ensures r.Err? <==> !Validators.IsIdText(id)
    ensures r.Err? ==> r.error == Custom(BadRequest, Validators.IdMessage)
    ensures r.Ok? ==> |r.value| == Count(chats, (c: ChatDoc) => ChatOf(c, party, id))
    ensures r.Ok? ==> forall i :: 0 <= i < |r.value| ==> r.value[i].chat in chats && ChatOf(r.value[i].chat, party, id)
    ensures r.Ok? ==> forall i, j :: 0 <= i < j < |r.value| ==> r.value[j].chat.updatedAt <= r.value[i].chat.updatedAt
    ensures r.Ok? ==> forall i :: 0 <= i < |r.value| ==>
              ((forall k :: 0 <= k < |unread| ==> unread[k].chatId != r.value[i].chat.id) ==> r.value[i].notSeenMessages == 0)
  {
    match Validators.ValidateIdFormat(id)
    case Fail(e) => Err(e)
    case Pass =>
      var list := FindAllChatsFor(chats, party, id);
      ListedChats(chats, list, party, id);
      Ok(WithNotSeen(list, unread))
  }

  /** The party's chats, as listed, are as many as it has, each one of
      them. */
  lemma ListedChats(chats: seq<ChatDoc>, list: seq<ChatDoc>, party: Video.Party, id: string)
    requires forall c :: multiset(list)[c] == if ChatOf(c, party, id) then multiset(chats)[c] else 0
    ensures |list| == Count(chats, (c: ChatDoc) => ChatOf(c, party, id))
    ensures forall i :: 0 <= i < |list| ==> list[i] in chats && ChatOf(list[i], party, id)
  {
    var keep := (c: ChatDoc) => ChatOf(c, party, id);
    FilterMultiset(chats, keep);
    assert multiset(list) == multiset(Filter(chats, keep));
    assert |list| == |multiset(list)| == |multiset(Filter(chats, keep))| == |Filter(chats, keep)|;
    forall i | 0 <= i < |list| ensures list[i] in chats && ChatOf(list[i], party, id) {
      assert multiset(list)[list[i]] > 0;
    }
  }
}
