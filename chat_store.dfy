/** The zustand store of src/store/chat-store.ts: chats with their messages, the id of the
    open chat, clients and uploaded documents, the actions that update them and the two
    selectors `useCurrentChat` and `useChatMessages`.

    `generateId()` and `new Date()` are not modelled: every action that calls them takes the
    id and the instant as parameters. */
module ChatStore {
  import opened JsBuiltins

  datatype AgentType = Legal | Commercial | Contract | Auto

  datatype Role = User | Assistant

  datatype DocumentType = ContractDoc | Policy | Regulation | Report | Other

  datatype Message = Message(
    id: string,
    role: Role,
    content: string,
    createdAt: int,
    sources: Option<seq<string>>,
    agentUsed: Option<AgentType>)

  /** `Omit<Message, 'id' | 'createdAt'>`. */
  datatype MessageDraft = MessageDraft(
    role: Role,
    content: string,
    sources: Option<seq<string>>,
    agentUsed: Option<AgentType>)

  datatype Chat = Chat(
    id: string,
    title: string,
    agentType: AgentType,
    messages: seq<Message>,
    clientId: Option<string>,
    createdAt: int,
    updatedAt: int)

  datatype Document = Document(
    id: string,
    name: string,
    docType: DocumentType,
    category: Option<string>,
    clientId: Option<string>,
    uploadedAt: int,
    size: Option<int>)

  /** `Omit<Document, 'id' | 'uploadedAt'>`. */
  datatype DocumentDraft = DocumentDraft(
    name: string,
    docType: DocumentType,
    category: Option<string>,
    clientId: Option<string>,
    size: Option<int>)

  datatype Client = Client(
    id: string,
    name: string,
    email: Option<string>,
    phone: Option<string>,
    cnpj: Option<string>,
    notes: Option<string>,
    documents: seq<Document>)

  /** `Omit<Client, 'id' | 'documents'>`. */
  datatype ClientDraft = ClientDraft(
    name: string,
    email: Option<string>,
    phone: Option<string>,
    cnpj: Option<string>,
    notes: Option<string>)

  /** `Partial<Client>`: None is a key the object does not have; for the optional fields
      Some(None) is a key present with the value `undefined`, which the spread copies. */
  datatype ClientPatch = ClientPatch(
    id: Option<string>,
    name: Option<string>,
    email: Option<Option<string>>,
    phone: Option<Option<string>>,
    cnpj: Option<Option<string>>,
    notes: Option<Option<string>>,
    documents: Option<seq<Document>>)

  /** The `name` of each entry of `AGENT_CONFIG`. */
  function AgentName(t: AgentType): string
  {
    match t
    case Auto => "Orquestrador Inteligente"
    case Legal => "Assistente Jurídico ANS"
    case Commercial => "Assistente Comercial"
    case Contract => "Assistente de Contratos"
  }

  /** The title `createChat` gives a new chat. */
  function NewChatTitle(t: AgentType): (title: string)
    ensures t == Auto ==> title == "Nova Conversa Inteligente"
    ensures t != Auto ==> title == "Nova Conversa - " + AgentName(t)
  {
    if t == Auto then "Nova Conversa Inteligente" else "Nova Conversa - " + AgentName(t)
  }

  // ---------------------------------------------------------------------------
  // The lists each action computes
  // ---------------------------------------------------------------------------

  function NewChat(id: string, agentType: AgentType, clientId: Option<string>, now: int): Chat
  {
    Chat(id, NewChatTitle(agentType), agentType, [], clientId, now, now)
  }

  function NotChat(id: string): Chat -> bool
  {
    (c: Chat) => c.id != id
  }

  /** `chats.filter((c) => c.id !== id)`. */
  function WithoutChat(chats: seq<Chat>, id: string): (r: seq<Chat>)
    ensures forall c :: c in r <==> c in chats && c.id != id
  {
    Filter(chats, NotChat(id))
  }

  /** `currentChatId === id ? null : currentChatId`. */
  function CurrentAfterDelete(current: Option<string>, id: string): (r: Option<string>)
    ensures r == None <==> current == None || current == Some(id)
    ensures r != None ==> r == current
  {
    if current == Some(id) then None else current
  }

  /** The chat after `addMessage` appended `message` to it at instant `now`. */
  function WithMessage(chat: Chat, message: Message, now: int): Chat
  {
    chat.(messages := chat.messages + [message], updatedAt := now)
  }

  function MessageFrom(draft: MessageDraft, id: string, now: int): Message
  {
    Message(id, draft.role, draft.content, now, draft.sources, draft.agentUsed)
  }

  /** `chats.map(...)` of `addMessage`: each chat with id `chatId` gets the message
      appended and its `updatedAt` moved to `now`; the others stay as they are. */
  function AppendMessage(chats: seq<Chat>, chatId: string, message: Message, now: int): (r: seq<Chat>)
    ensures |r| == |chats|
    ensures forall i :: 0 <= i < |chats| ==>
              if chats[i].id == chatId then
                r[i].messages == chats[i].messages + [message] && r[i].updatedAt == now
                && r[i] == chats[i].(messages := r[i].messages, updatedAt := now)
              else r[i] == chats[i]
  {
    seq(|chats|, i requires 0 <= i < |chats| => if chats[i].id == chatId then WithMessage(chats[i], message, now) else chats[i])
  }

  /** `chats.map(...)` of `updateChatTitle`. */
  function Retitle(chats: seq<Chat>, chatId: string, title: string, now: int): (r: seq<Chat>)
    ensures |r| == |chats|
    ensures forall i :: 0 <= i < |chats| ==>
              if chats[i].id == chatId then r[i] == chats[i].(title := title, updatedAt := now)
              else r[i] == chats[i]
  {
    seq(|chats|, i requires 0 <= i < |chats| =>
      if chats[i].id == chatId then chats[i].(title := title, updatedAt := now) else chats[i])
  }

  function NewClient(draft: ClientDraft, id: string): Client
  {
    Client(id, draft.name, draft.email, draft.phone, draft.cnpj, draft.notes, [])
  }

  /** `{ ...c, ...data }`: every key `data` has replaces the client's. */
  function Merge(c: Client, data: ClientPatch): (m: Client)
    ensures data.id.Some? ==> m.id == data.id.value
    ensures data.id.None? ==> m.id == c.id
    ensures data.name.Some? ==> m.name == data.name.value
    ensures data.name.None? ==> m.name == c.name
    ensures data.email.Some? ==> m.email == data.email.value
    ensures data.email.None? ==> m.email == c.email
    ensures data.phone.Some? ==> m.phone == data.phone.value
    ensures data.phone.None? ==> m.phone == c.phone
    ensures data.cnpj.Some? ==> m.cnpj == data.cnpj.value
    ensures data.cnpj.None? ==> m.cnpj == c.cnpj
    ensures data.notes.Some? ==> m.notes == data.notes.value
    ensures data.notes.None? ==> m.notes == c.notes
    ensures data.documents.Some? ==> m.documents == data.documents.value
    ensures data.documents.None? ==> m.documents == c.documents
  {
    Client(
      if data.id.Some? then data.id.value else c.id,
      if data.name.Some? then data.name.value else c.name,
      if data.email.Some? then data.email.value else c.email,
      if data.phone.Some? then data.phone.value else c.phone,
      if data.cnpj.Some? then data.cnpj.value else c.cnpj,
      if data.notes.Some? then data.notes.value else c.notes,
      if data.documents.Some? then data.documents.value else c.documents)
  }

  /** `clients.map((c) => c.id === id ? { ...c, ...data } : c)`. */
  function UpdateClients(clients: seq<Client>, id: string, data: ClientPatch): (r: seq<Client>)
    ensures |r| == |clients|
  {
    seq(|clients|, i requires 0 <= i < |clients| => if clients[i].id == id then Merge(clients[i], data) else clients[i])
  }

  function NotClient(id: string): Client -> bool
  {
    (c: Client) => c.id != id
  }

  function NotDocument(id: string): Document -> bool
  {
    (d: Document) => d.id != id
  }

  function NewDocument(draft: DocumentDraft, id: string, now: int): Document
  {
    Document(id, draft.name, draft.docType, draft.category, draft.clientId, now, draft.size)
  }

  // ---------------------------------------------------------------------------
  // Selectors
  // ---------------------------------------------------------------------------

  /** `chats.find((c) => c.id === currentChatId) || null`: the first chat whose id is the
      current id, or None (always None while the current id is null). */
  function FindChat(chats: seq<Chat>, current: Option<string>): (r: Option<Chat>)
    ensures r.None? <==> forall c :: c in chats ==> current != Some(c.id)
    ensures r.Some? ==> FirstMatch(chats, current, r.value)
  {
    if chats == [] then None
    else if current == Some(chats[0].id) then Some(chats[0])
    else
      var r := FindChat(chats[1..], current);
      assert chats == [chats[0]] + chats[1..];
      if r.Some? then
        FindShift(chats, current, r.value);
        r
      else r
  }

  /** `c` is the first chat of `chats` whose id is `current`. */
  predicate FirstMatch(chats: seq<Chat>, current: Option<string>, c: Chat)
  {
    exists k :: 0 <= k < |chats| && chats[k] == c && current == Some(chats[k].id) && NoMatchBefore(chats, current, k)
  }

  predicate NoMatchBefore(chats: seq<Chat>, current: Option<string>, k: int)
    requires k <= |chats|
  {
    forall j :: 0 <= j < k ==> current != Some(chats[j].id)
  }

  lemma FindShift(chats: seq<Chat>, current: Option<string>, c: Chat)
    requires chats != [] && current != Some(chats[0].id)
    requires FirstMatch(chats[1..], current, c)
    ensures FirstMatch(chats, current, c)
  {
    var k :| 0 <= k < |chats[1..]| && chats[1..][k] == c && current == Some(chats[1..][k].id) && NoMatchBefore(chats[1..], current, k);
    assert chats[k + 1] == c;
    forall j | 0 <= j < k + 1 ensures current != Some(chats[j].id) {
      if j > 0 {
        assert chats[j] == chats[1..][j - 1];
      }
    }
  }

  /** `chat?.messages || []`: an array is truthy even when empty. */
  function MessagesOf(chat: Option<Chat>): seq<Message>
  {
    if chat.Some? then chat.value.messages else []
  }

  // ---------------------------------------------------------------------------
  // The store
  // ---------------------------------------------------------------------------

  class Store {
    var chats: seq<Chat>
    var currentChatId: Option<string>
    var clients: seq<Client>
    var documents: seq<Document>

    /** The initial state: no chats, no open chat, no clients, no documents. */
    constructor ()
      ensures chats == [] && currentChatId == None && clients == [] && documents == []
    {
      chats := [];
      currentChatId := None;
      clients := [];
      documents := [];
    }

    /** `useCurrentChat()`. */
    function CurrentChat(): Option<Chat>
      reads this
    {
      FindChat(chats, currentChatId)
    }

    /** `useChatMessages()`. */
    function ChatMessages(): seq<Message>
      reads this
    {
      MessagesOf(CurrentChat())
    }

    method SetCurrentChatId(id: Option<string>)
      modifies this
      ensures currentChatId == id
      ensures chats == old(chats) && clients == old(clients) && documents == old(documents)
    {
      currentChatId := id;
    }

    /** `createChat(agentType, clientId)`, with `id` the generated id and `now` the
        instant. The new chat goes first and becomes the open one. */
    method CreateChat(agentType: AgentType, clientId: Option<string>, id: string, now: int) returns (r: string)
      modifies this
      ensures r == id
      ensures chats == [NewChat(id, agentType, clientId, now)] + old(chats)
      ensures currentChatId == Some(id)
      ensures clients == old(clients) && documents == old(documents)
      ensures CurrentChat() == Some(NewChat(id, agentType, clientId, now)) && ChatMessages() == []
    {
      var newChat := NewChat(id, agentType, clientId, now);
      chats := [newChat] + chats;
      currentChatId := Some(id);
      return id;
    }

    method DeleteChat(id: string)
      modifies this
      ensures chats == WithoutChat(old(chats), id)
      ensures currentChatId == CurrentAfterDelete(old(currentChatId), id)
      ensures clients == old(clients) && documents == old(documents)
    {
      chats := WithoutChat(chats, id);
      currentChatId := CurrentAfterDelete(currentChatId, id);
    }

    /** `addMessage(chatId, message)`, with `messageId` the generated id and `now` the
        instant. */
    method AddMessage(chatId: string, draft: MessageDraft, messageId: string, now: int)
      modifies this
      ensures chats == AppendMessage(old(chats), chatId, MessageFrom(draft, messageId, now), now)
      ensures currentChatId == old(currentChatId) && clients == old(clients) && documents == old(documents)
    {
      chats := AppendMessage(chats, chatId, MessageFrom(draft, messageId, now), now);
    }

    method UpdateChatTitle(chatId: string, title: string, now: int)
      modifies this
      ensures chats == Retitle(old(chats), chatId, title, now)
      ensures currentChatId == old(currentChatId) && clients == old(clients) && documents == old(documents)
    {
      chats := Retitle(chats, chatId, title, now);
    }

    /** `addClient(client)`: appends the client with no documents and returns its id. */
    method AddClient(draft: ClientDraft, id: string) returns (r: string)
      modifies this
      ensures r == id
      ensures clients == old(clients) + [NewClient(draft, id)]
      ensures chats == old(chats) && currentChatId == old(currentChatId) && documents == old(documents)
    {
      clients := clients + [NewClient(draft, id)];
      return id;
    }

    method UpdateClient(id: string, data: ClientPatch)
      modifies this
      ensures clients == UpdateClients(old(clients), id, data)
      ensures chats == old(chats) && currentChatId == old(currentChatId) && documents == old(documents)
    {
      clients := UpdateClients(clients, id, data);
    }

    /** `deleteClient(id)`: the store's documents are left as they are. */
    method DeleteClient(id: string)
      modifies this
      ensures clients == Filter(old(clients), NotClient(id))
      ensures chats == old(chats) && currentChatId == old(currentChatId) && documents == old(documents)
    {
      clients := Filter(clients, NotClient(id));
    }

    method AddDocument(draft: DocumentDraft, id: string, now: int) returns (r: string)
      modifies this
      ensures r == id
      ensures documents == old(documents) + [NewDocument(draft, id, now)]
      ensures chats == old(chats) && currentChatId == old(currentChatId) && clients == old(clients)
    {
      documents := documents + [NewDocument(draft, id, now)];
      return id;
    }

    method DeleteDocument(id: string)
      modifies this
      ensures documents == Filter(old(documents), NotDocument(id))
      ensures chats == old(chats) && currentChatId == old(currentChatId) && clients == old(clients)
    {
      documents := Filter(documents, NotDocument(id));
    }
  }

  // ---------------------------------------------------------------------------
  // Properties of the actions
  // ---------------------------------------------------------------------------

  /** A new chat is found first by its id: the open chat is the new one, with no
      messages. */
  lemma CreatedChatIsCurrent(chats: seq<Chat>, id: string, agentType: AgentType, clientId: Option<string>, now: int)
    ensures FindChat([NewChat(id, agentType, clientId, now)] + chats, Some(id)) == Some(NewChat(id, agentType, clientId, now))
    ensures MessagesOf(FindChat([NewChat(id, agentType, clientId, now)] + chats, Some(id))) == []
  {
  }

  /** Deleting a chat removes every chat with that id and keeps the others in their order:
      a single chat stays exactly when its id differs, and deletion distributes over
      concatenation. Deleting an id no chat has changes nothing; deleting twice is deleting
      once. */
  lemma {:induction false} DeleteChatKeepsOrder(chats: seq<Chat>, more: seq<Chat>, c: Chat, id: string)
    ensures forall x :: x in WithoutChat(chats, id) ==> x.id != id
    ensures WithoutChat([c], id) == if c.id != id then [c] else []
    ensures WithoutChat(chats + more, id) == WithoutChat(chats, id) + WithoutChat(more, id)
    ensures (forall x :: x in chats ==> x.id != id) ==> WithoutChat(chats, id) == chats
    ensures WithoutChat(WithoutChat(chats, id), id) == WithoutChat(chats, id)
  {
    if forall x :: x in chats ==> x.id != id {
      FilterKeepsAll(chats, NotChat(id));
    }
    if c.id != id {
      FilterKeepsAll([c], NotChat(id));
    } else {
      FilterDropsAll([c], NotChat(id));
    }
    FilterConcat(chats, more, NotChat(id));
    FilterIdempotent(chats, NotChat(id));
  }

  /** After deleting the open chat there is no open chat; after deleting another one the
      open chat is the same chat as before. */
  lemma DeleteChatSelection(chats: seq<Chat>, current: Option<string>, id: string)
    ensures current == Some(id) ==> FindChat(WithoutChat(chats, id), CurrentAfterDelete(current, id)) == None
    ensures current != Some(id) ==>
              FindChat(WithoutChat(chats, id), CurrentAfterDelete(current, id)) == FindChat(chats, current)
  {
    if current != Some(id) {
      FindSkipsOthers(chats, current, id);
    }
  }

  /** Dropping chats whose id is not the one looked for does not change what is found. */
  lemma {:induction false} FindSkipsOthers(chats: seq<Chat>, current: Option<string>, id: string)
    requires current != Some(id)
    ensures FindChat(Filter(chats, NotChat(id)), current) == FindChat(chats, current)
    decreases |chats|
  {
    if chats != [] {
      FindSkipsOthers(chats[1..], current, id);
      var head := if NotChat(id)(chats[0]) then [chats[0]] else [];
      var rest := Filter(chats[1..], NotChat(id));
      assert Filter(chats, NotChat(id)) == head + rest;
      if head != [] {
        assert (head + rest)[0] == chats[0];
        assert (head + rest)[1..] == rest;
      } else {
        assert head + rest == rest;
      }
    }
  }

  /** `addMessage` keeps the number and the order of the chats; a chat with another id is
      left exactly as it was, and an unknown id changes nothing. */
  lemma AddMessageUnknownChat(chats: seq<Chat>, chatId: string, message: Message, now: int)
    requires forall c :: c in chats ==> c.id != chatId
    ensures AppendMessage(chats, chatId, message, now) == chats
  {
    var r := AppendMessage(chats, chatId, message, now);
    forall i | 0 <= i < |chats| ensures r[i] == chats[i] {
      assert chats[i] in chats;
    }
  }

  /** Adding a message to the open chat appends it to what `useChatMessages` returns. */
  lemma AddMessageToCurrent(chats: seq<Chat>, chatId: string, message: Message, now: int)
    requires FindChat(chats, Some(chatId)).Some?
    ensures MessagesOf(FindChat(AppendMessage(chats, chatId, message, now), Some(chatId)))
         == MessagesOf(FindChat(chats, Some(chatId))) + [message]
  {
    var r := AppendMessage(chats, chatId, message, now);
    var c := FindChat(chats, Some(chatId)).value;
    var k :| 0 <= k < |chats| && chats[k] == c && Some(chatId) == Some(chats[k].id) && NoMatchBefore(chats, Some(chatId), k);
    FindAt(r, Some(chatId), k);
  }

  /** The chat at index `k` is found when it is the first with the id looked for. */
  lemma {:induction false} FindAt(chats: seq<Chat>, current: Option<string>, k: nat)
    requires k < |chats| && current == Some(chats[k].id)
    requires NoMatchBefore(chats, current, k)
    ensures FindChat(chats, current) == Some(chats[k])
    decreases k
  {
    if k > 0 {
      FindAt(chats[1..], current, k - 1);
    }
  }

  /** `updateChatTitle` changes the title and `updatedAt` of the matching chats and nothing
      else: messages, agent, client and creation time stay. */
  lemma RetitleKeepsContent(chats: seq<Chat>, chatId: string, title: string, now: int)
    ensures var r := Retitle(chats, chatId, title, now);
      forall i :: 0 <= i < |chats| ==>
        r[i].id == chats[i].id && r[i].messages == chats[i].messages && r[i].agentType == chats[i].agentType
        && r[i].clientId == chats[i].clientId && r[i].createdAt == chats[i].createdAt
        && (chats[i].id == chatId ==> r[i].title == title)
  {
  }

  /** The empty patch leaves every client as it was. */
  lemma EmptyPatch(clients: seq<Client>, id: string)
    ensures UpdateClients(clients, id, ClientPatch(None, None, None, None, None, None, None)) == clients
  {
  }

  /** `updateClient` keeps the number and order of clients, leaves the other clients as they
      were, and merges `data` into the matching ones, `id` included. */
  lemma UpdateClientEffect(clients: seq<Client>, id: string, data: ClientPatch)
    ensures var r := UpdateClients(clients, id, data);
      forall i :: 0 <= i < |clients| ==>
        (clients[i].id != id ==> r[i] == clients[i]) &&
        (clients[i].id == id ==> r[i] == Merge(clients[i], data)
                                 && r[i].id == (if data.id.Some? then data.id.value else id))
  {
  }

  /** Merging the same patch twice is merging it once. */
  lemma MergeIdempotent(c: Client, data: ClientPatch)
    ensures Merge(Merge(c, data), data) == Merge(c, data)
  {
  }

  /** `deleteClient` and `deleteDocument` remove exactly the entries with that id. */
  lemma DeleteById(clients: seq<Client>, documents: seq<Document>, id: string)
    ensures forall c :: c in Filter(clients, NotClient(id)) <==> c in clients && c.id != id
    ensures forall d :: d in Filter(documents, NotDocument(id)) <==> d in documents && d.id != id
    ensures |Filter(clients, NotClient(id))| <= |clients|
  {
  }

  /** A new client starts with no documents and is found by its id at the end of the
      list. */
  lemma AddedClient(clients: seq<Client>, draft: ClientDraft, id: string)
    ensures var r := clients + [NewClient(draft, id)];
      r[|r| - 1].id == id && r[|r| - 1].documents == [] && r[|r| - 1].name == draft.name && r[..|clients|] == clients
  {
  }
}
