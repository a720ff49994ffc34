# PiriDocs core, modelled in Dafny

PiriDocs is a Next.js assistant for health-insurance brokers. Its server code has three parts:

- A retrieval-augmented generation (RAG) service. It splits stored documents into overlapping chunks and gives each chunk a hash-seeded pseudo-embedding. It ranks stored chunks against a query and renders the best ones into a context string for the language model.
- A chat API. It validates a request, picks the agent's system prompt and sends the model a window of the recent history. It then extracts cited norms (RN, RI, Lei, Cláusula) from the answer.
- Two upload routes:
  - One classifies uploaded files by name and records them.
  - The other assembles a PDF's pages from its text items and writes one document per non-blank page.

On the client, a zustand store keeps the chats, the open chat, the clients and the documents.

The Dafny project models these five files:

| file | Dafny | form |
|---|---|---|
| src/lib/rag-service.ts | `RagChunking`, `RagEmbedding`, `TextEncoder`, `RagIngest`, `RagSearch` | loops as methods proved against spec functions; the embedding tables as a class |
| src/store/chat-store.ts | `ChatStore` | class `Store` with one method per action; selectors and reducers as functions |
| src/app/api/chat/route.ts | `ChatRoute` | handler as a method; the push loops as methods; prompt lookup and source groups as functions |
| src/app/api/documents/upload/route.ts | `DocumentsUpload` | classifiers as functions; the per-file loop as a method |
| app/api/upload/route.ts | `PdfUpload` | the `pagerender` loop, page list and batch as methods; the Firestore collection as a class |

`JsBuiltins` holds the JavaScript built-ins these files rely on:

- `trim`, using the WhiteSpace and LineTerminator sets of ECMA-262;
- `toLowerCase` and `toUpperCase`, for ASCII and Latin-1;
- `includes`, `lastIndexOf`, `join`, `slice`;
- the ToInt32 conversion of section 7.1.6 of ECMA-262;
- `filter`, and deduplication through `Set`.

Strings are sequences of Unicode scalar values. The UTF-8 encoder follows RFC 3629.

Each method is proved equal to a specification function. The lemmas then state what the code promises about that function. Hosted services are never modelled: Prisma, Firestore, the z-ai completion and vision calls, and pdf-parse. What they return is a parameter of the operation that calls them.

## Model

| member | source | states |
|---|---|---|
| JsBuiltins.Trim | src/lib/rag-service.ts:61-62 | `trim()` never lengthens a string |
| JsBuiltins.TrimEnds | src/lib/rag-service.ts:61-62 | the trim is empty exactly when the string has no non-whitespace character; otherwise it starts and ends with a non-whitespace character |
| JsBuiltins.TrimSlice | src/lib/rag-service.ts:61-62 | the trim is a contiguous slice of the original string |
| JsBuiltins.TrimIdempotent | app/api/upload/route.ts:31 | trimming twice is trimming once |
| JsBuiltins.ToLower | src/app/api/documents/upload/route.ts:9 | `toLowerCase()` keeps the length and maps each character to its lower-case form, with no upper-case letter left |
| JsBuiltins.ToUpper | src/app/api/documents/upload/route.ts:19 | `toUpperCase()` keeps the length and maps each character to its upper-case form, with no lower-case letter left |
| JsBuiltins.Includes | src/app/api/documents/upload/route.ts:10-13 | `includes(sub)` is true exactly when `sub` occurs at some index |
| JsBuiltins.IncludesTransitive | src/app/api/documents/upload/route.ts:12-13 | a string containing `mid` contains everything `mid` contains |
| JsBuiltins.LastIndexOf | src/lib/rag-service.ts:47-48 | `lastIndexOf(c)` is -1 or an index holding `c`, and no later index holds `c` |
| JsBuiltins.JoinAppend | src/lib/rag-service.ts:309 | joining one more part appends the separator and that part |
| JsBuiltins.JoinLength | src/lib/rag-service.ts:309 | a join is as long as its parts plus one separator between each two |
| JsBuiltins.SliceTo | src/app/api/chat/route.ts:218 | `slice(0, k)` is the prefix of length min(k, n) for k >= 0, and drops -k elements from the end for k < 0 |
| JsBuiltins.SliceLast | src/app/api/chat/route.ts:180 | `slice(-k)` is the suffix of length min(k, n) |
| JsBuiltins.Filter | src/store/chat-store.ts:150 | `filter` keeps exactly the elements that pass the test, never more than the input |
| JsBuiltins.FilterConcat | src/store/chat-store.ts:150 | filtering a concatenation filters each part |
| JsBuiltins.FilterIdempotent | src/store/chat-store.ts:194 | filtering twice with the same test is filtering once |
| JsBuiltins.Dedupe | src/app/api/chat/route.ts:210-213 | `[...new Set(xs)]` has the same members as `xs` and no duplicates |
| JsBuiltins.IndexOf | src/app/api/chat/route.ts:210-213 | the index of a value's first occurrence: it holds the value and no earlier index does |
| JsBuiltins.IndexOfAppend | src/app/api/chat/route.ts:210-213 | appending an element does not move the first occurrence of a value already present |
| JsBuiltins.DedupeOrder | src/app/api/chat/route.ts:210-213 | `[...new Set(xs)]` lists the values in the order of their first occurrence in `xs` |
| JsBuiltins.DedupeDistinct | src/app/api/chat/route.ts:212-213 | a list without duplicates goes through the Set unchanged |
| JsBuiltins.ToInt32 | src/lib/rag-service.ts:86-87 | ToInt32 gives a 32-bit signed value congruent to its input modulo 2^32 |
| JsBuiltins.NatToString | src/app/api/documents/upload/route.ts:116 | a count is written as a non-empty run of decimal digits with no leading zero |
| JsBuiltins.ParseNatToString | src/app/api/documents/upload/route.ts:116 | the decimal digits of a count read back to that count |
| TextEncoder.EncodeScalar | src/lib/rag-service.ts:78-79 | each character becomes 1 to 4 bytes: one byte exactly for ASCII, otherwise a lead byte announcing the length followed by continuation bytes |
| TextEncoder.Encode | src/lib/rag-service.ts:78-79 | the UTF-8 form is between one and four bytes per character |
| TextEncoder.EncodeConcat | src/lib/rag-service.ts:78-79 | encoding a concatenation concatenates the encodings |
| TextEncoder.EncodeAscii | src/lib/rag-service.ts:78-79 | ASCII text encodes to one byte per character, its code |
| TextEncoder.DecodeEncodeScalar | src/lib/rag-service.ts:78-79 | each character's byte sequence decodes back to that character |
| TextEncoder.DecodeEncode | src/lib/rag-service.ts:78-79 | the encoding loses nothing: decoding it gives back every character, in order |
| RagChunking.LastBreak | src/lib/rag-service.ts:47-49 | the break point is -1 or the index of a '.' or '\n', with no break character after it |
| RagChunking.WindowAt | src/lib/rag-service.ts:42-59 | one turn cuts a non-empty slice of at most 1000 characters from the cursor. The snap fires exactly when text remains after the full window and the window-relative last break point exceeds start + 500, which needs a cursor below 499. The slice then ends, and the cursor moves, to that break point plus one read as an absolute index; the break character sits at text[start + stop - 1]. Without a snap the cursor moves 800 on, or to the end |
| RagChunking.WindowsFrom | src/lib/rag-service.ts:41-64 | the loop visits a window exactly while text remains, every window inside the text; the cursor strictly increases, so the loop terminates |
| RagChunking.WindowsCover | src/lib/rag-service.ts:41-59 | the first window starts at the cursor and the last reaches the end of the text. Each window starts strictly after the previous one and no later than the previous one's end, so together they cover the text |
| RagChunking.Piece | src/lib/rag-service.ts:61-63 | a window contributes its trimmed slice, which is non-empty and equals its own trim, or nothing when the slice is blank |
| RagChunking.VisitWindow | src/lib/rag-service.ts:41-64 | one turn of the loop appends its window to those visited and its piece to the chunks kept |
| RagChunking.CutAt | src/lib/rag-service.ts:42-59 | the loop body cuts the window's slice and moves the cursor to the window's successor |
| RagChunking.SplitIntoChunks | src/lib/rag-service.ts:37-67 | the loop returns exactly the kept pieces of the windows it visits |
| RagChunking.KeptTrimmed | src/lib/rag-service.ts:61-63 | every kept chunk is non-empty and equals its own trim |
| RagChunking.KeptFromWindows | src/lib/rag-service.ts:42-63 | every kept chunk is the trim of the slice of one visited window |
| RagChunking.ChunksAreTrimmedSlices | src/lib/rag-service.ts:42-63 | every chunk is non-empty, equals its own trim, and is the trim of a slice of the text at most 1000 characters wide |
| RagChunking.ShortText | src/lib/rag-service.ts:41-63 | text of at most 1000 characters gives `[text.trim()]`, or `[]` when it is blank |
| RagChunking.NoSnapAfterStart | src/lib/rag-service.ts:51 | from a cursor at 499 or later the sentence snap never fires, because the window-relative break point is compared with the absolute cursor |
| RagChunking.SnapOnlyInFirstWindow | src/lib/rag-service.ts:46-56 | the snap fires in the first window at most, where it cuts right after a '.' or '\n'; every later window starts at 502 or beyond and is never snapped |
| RagChunking.CursorsFrom | src/lib/rag-service.ts:41-59 | no window starts before the cursor the loop starts from |
| RagChunking.FixedWindows | src/lib/rag-service.ts:55 | text without '.' and '\n' is cut into windows 800 characters apart |
| RagChunking.ThreeWindowsFor2500 | src/lib/rag-service.ts:41-59 | 2500 characters without a sentence break give exactly three windows |
| RagEmbedding.HashStep | src/lib/rag-service.ts:86-87 | one turn of the hash loop leaves a 32-bit signed value |
| RagEmbedding.HashStepIsTimes31 | src/lib/rag-service.ts:86-87 | `((h << 5) - h) + b` followed by `h & h` is ToInt32(31 * h + b) |
| RagEmbedding.HashBytes | src/lib/rag-service.ts:83-88 | the hash of any byte string is a 32-bit signed value |
| RagEmbedding.TextHash | src/lib/rag-service.ts:78-88 | the hash of a text, taken over its UTF-8 bytes, is a 32-bit signed value |
| RagEmbedding.HashText | src/lib/rag-service.ts:83-88 | the hash loop computes the fold of ToInt32(31 * h + b) over the UTF-8 bytes |
| RagEmbedding.Embedding | src/lib/rag-service.ts:90-94 | the embedding always has 1536 entries |
| RagEmbedding.GenerateEmbedding | src/lib/rag-service.ts:74-97 | the vector loop returns the 1536 entries seeded by the text's hash |
| RagEmbedding.EmbeddingDeterminedByHash | src/lib/rag-service.ts:90-94 | two texts get the same vector exactly when their hashes agree |
| RagEmbedding.EmbeddingCollision | src/lib/rag-service.ts:85-88 | distinct texts can share a vector: "Aa" and "BB" hash alike |
| RagIngest.EmbeddingTable.DeleteMany | src/lib/rag-service.ts:129-131 | `deleteMany` removes exactly the rows of the document and keeps the others in order |
| RagIngest.EmbeddingTable.Create | src/lib/rag-service.ts:140-147 | `create` appends the row |
| RagIngest.ChunkRecords | src/lib/rag-service.ts:137-148 | one row per chunk, all for the document, the i-th with chunk index i and the i-th chunk's text |
| RagIngest.ChunkRecordsAppend | src/lib/rag-service.ts:137-148 | each turn of the insert loop appends the row for chunk i |
| RagIngest.ContentToProcess | src/lib/rag-service.ts:122-126 | processing goes on exactly when the document exists and its content is neither null nor empty |
| RagIngest.ProcessDocument | src/lib/rag-service.ts:121-151 | the processing leaves the table as the reprocessing specification says: old rows of the document deleted, then one row per chunk appended |
| RagIngest.NothingToProcess | src/lib/rag-service.ts:126 | a missing document, or one with null or empty content, leaves the table unchanged |
| RagIngest.OthersUntouched | src/lib/rag-service.ts:129-131 | the rows of every other document stay the same and in the same order |
| RagIngest.FilterSubsumed | src/lib/rag-service.ts:129-131 | deleting one document's rows keeps all the rows of any other document |
| RagIngest.RowsOfProcessed | src/lib/rag-service.ts:129-148 | after processing, the document's rows are exactly one per chunk of its content, with chunk indices 0, 1, 2, ... in order |
| RagIngest.ProcessTwice | src/lib/rag-service.ts:121-151 | processing the same unchanged document twice gives the same table as processing it once |
| RagIngest.InsertedChunksTrimmed | src/lib/rag-service.ts:134-147 | every inserted chunk text is non-empty and equals its own trim |
| RagIngest.ChunkRecordsTrimmed | src/lib/rag-service.ts:134-147 | the rows made from a content's chunks all hold non-empty trimmed text |
| RagIngest.ChunksTrimmed | src/lib/rag-service.ts:61-63 | every chunk of a content is non-empty and trimmed |
| RagSearch.InsertByScore | src/lib/rag-service.ts:221 | inserting into the sorted list adds exactly one element |
| RagSearch.InsertPermutes | src/lib/rag-service.ts:221 | the insertion adds the element and loses nothing |
| RagSearch.InsertSorted | src/lib/rag-service.ts:221 | inserting into a list sorted by descending score keeps it sorted |
| RagSearch.SortByScore | src/lib/rag-service.ts:221 | the sort keeps the length |
| RagSearch.SortPermutes | src/lib/rag-service.ts:221 | the sort is a permutation of its input |
| RagSearch.SortIsSorted | src/lib/rag-service.ts:221 | the sort's result has non-increasing scores |
| RagSearch.InsertKeepsTies | src/lib/rag-service.ts:221 | the inserted element goes after every element with its own score |
| RagSearch.InsertAhead | src/lib/rag-service.ts:221 | an element that outscores the whole list goes first, so no equal-score element moves past it |
| RagSearch.InsertBehind | src/lib/rag-service.ts:221 | an element that does not outscore the head goes after it, so the head keeps its place in any filter |
| RagSearch.SortKeepsTies | src/lib/rag-service.ts:221 | the sort is stable: for every score, the elements with that score keep their input order |
| RagSearch.SortSorted | src/lib/rag-service.ts:221 | sorting an already sorted list changes nothing |
| RagSearch.InsertLast | src/lib/rag-service.ts:221 | an element scoring no higher than all the others goes last |
| RagSearch.KbSources | src/lib/rag-service.ts:205-217 | one source per stored row |
| RagSearch.ClientSources | src/lib/rag-service.ts:253-265 | one source per row of the client |
| RagSearch.Ranked | src/lib/rag-service.ts:220-222 | sort then slice gives a descending list of min(n, limit) of the n candidates for a non-negative limit, and invents nothing |
| RagSearch.SearchKnowledgeBase | src/lib/rag-service.ts:191-223 | the scoring loop, sort and slice compute the knowledge-base search specification |
| RagSearch.KbSearchFacts | src/lib/rag-service.ts:197-222 | the result is sorted by descending score and holds min(#rows, limit) sources, each tagged knowledge_base and made from a stored row |
| RagSearch.SearchClientDocuments | src/lib/rag-service.ts:228-270 | the scoring loop over the client's rows, sort and slice compute the client search specification |
| RagSearch.ClientIsolation | src/lib/rag-service.ts:236-269 | the result is sorted and holds min(#rows of the client, limit) sources. Each is tagged client_document and made from a row whose document belongs to the requested client |
| RagSearch.Blocks | src/lib/rag-service.ts:297-305 | one context part per source |
| RagSearch.BlocksAppend | src/lib/rag-service.ts:297-305 | each turn of the render loop appends that source's part |
| RagSearch.RenderContext | src/lib/rag-service.ts:295-309 | the render loop joins one `[label] name:\nchunk` part per source, in order, with `\n\n---\n\n` |
| RagSearch.GatherSources | src/lib/rag-service.ts:279-289 | the gathered sources are the knowledge-base search with limit 3, followed by the client search with limit 2 when there is a client |
| RagSearch.SearchFullContext | src/lib/rag-service.ts:275-311 | the handler returns the full-context specification: gathered, sorted, sliced to 5, and rendered |
| RagSearch.NothingDropped | src/lib/rag-service.ts:282-297 | at most 5 sources are gathered, so the slice to 5 drops nothing: the result is every gathered source, sorted |
| RagSearch.SourceCount | src/lib/rag-service.ts:282-289 | the number of sources is min(#kb rows, 3), plus min(#client rows, 2) when there is a client |
| RagSearch.NoClientSources | src/lib/rag-service.ts:286 | with an absent or empty client id every source comes from the knowledge base |
| RagSearch.EmptyStore | src/lib/rag-service.ts:275-311 | empty tables give no sources and the empty context |
| RagSearch.ContextLayout | src/lib/rag-service.ts:295-309 | the context is one part per returned source, in order, separated by `\n\n---\n\n`; a single source gives its part alone |
| RagSearch.FormatSourcesForDisplay | src/lib/rag-service.ts:316-321 | one display line per source |
| RagSearch.DisplayRoundTrip | src/lib/rag-service.ts:316-321 | each line reads back as its source's type (`KB` or `Cliente`) and document name, in the order of the sources |
| ChatStore.NewChatTitle | src/store/chat-store.ts:131-136 | the title is "Nova Conversa Inteligente" for the auto agent, otherwise "Nova Conversa - " and the agent's name |
| ChatStore.WithoutChat | src/store/chat-store.ts:150 | the remaining chats are exactly those whose id differs |
| ChatStore.CurrentAfterDelete | src/store/chat-store.ts:151 | the open chat id becomes null exactly when it was the deleted id (or already null), and is otherwise unchanged |
| ChatStore.AppendMessage | src/store/chat-store.ts:155-172 | every chat with the id gets exactly the message appended and its update time set, nothing else changed; other chats are unchanged; length and order are kept |
| ChatStore.Retitle | src/store/chat-store.ts:173-177 | the matching chats change title and update time only; the others are unchanged |
| ChatStore.Merge | src/store/chat-store.ts:190 | every field the patch carries (id, name, email, phone, cnpj, notes, documents) replaces the client's, and every field it lacks is kept |
| ChatStore.UpdateClients | src/store/chat-store.ts:188-192 | the client list keeps its length |
| ChatStore.FindChat | src/store/chat-store.ts:231-235 | `find` gives null exactly when no chat has the open id, otherwise the first chat that has it |
| ChatStore.FindShift | src/store/chat-store.ts:234 | a non-matching head does not change which chat is first found |
| ChatStore.Store.constructor | src/store/chat-store.ts:126-198 | the store starts with no chats, no open chat, no clients and no documents |
| ChatStore.Store.SetCurrentChatId | src/store/chat-store.ts:128 | sets the open chat id and nothing else |
| ChatStore.Store.CreateChat | src/store/chat-store.ts:129-148 | prepends the new chat, opens it and returns its id; the open chat is then the new one, with no messages; clients and documents are unchanged |
| ChatStore.Store.DeleteChat | src/store/chat-store.ts:149-152 | removes the chats with the id and clears the open id only when it was that id; clients and documents are unchanged |
| ChatStore.Store.AddMessage | src/store/chat-store.ts:155-172 | appends the message to the matching chats and changes nothing else in the store |
| ChatStore.Store.UpdateChatTitle | src/store/chat-store.ts:173-177 | retitles the matching chats and changes nothing else in the store |
| ChatStore.Store.AddClient | src/store/chat-store.ts:181-187 | appends the client with no documents, returns its id and changes nothing else |
| ChatStore.Store.UpdateClient | src/store/chat-store.ts:188-192 | merges the patch into the matching clients and changes nothing else |
| ChatStore.Store.DeleteClient | src/store/chat-store.ts:193-195 | removes the clients with the id and leaves the documents as they are |
| ChatStore.Store.AddDocument | src/store/chat-store.ts:199-205 | appends the document stamped with its id and time, returns the id and changes nothing else |
| ChatStore.Store.DeleteDocument | src/store/chat-store.ts:206-208 | removes the documents with the id and changes nothing else |
| ChatStore.CreatedChatIsCurrent | src/store/chat-store.ts:143-146 | after `createChat` the open chat is the new chat and its message list is empty |
| ChatStore.DeleteChatKeepsOrder | src/store/chat-store.ts:149-152 | no chat with the id survives; a single chat stays exactly when its id differs and deletion distributes over concatenation, so the others keep their order; deleting an absent id changes nothing; deleting twice is deleting once |
| ChatStore.DeleteChatSelection | src/store/chat-store.ts:149-152 | after deleting the open chat nothing is open; after deleting another chat the open chat is the same as before |
| ChatStore.FindSkipsOthers | src/store/chat-store.ts:150 | dropping chats with another id does not change which chat is found |
| ChatStore.AddMessageUnknownChat | src/store/chat-store.ts:155-172 | a message for an unknown chat id changes nothing |
| ChatStore.AddMessageToCurrent | src/store/chat-store.ts:155-172 | a message added to the open chat is appended to what `useChatMessages` returns |
| ChatStore.FindAt | src/store/chat-store.ts:234 | the chat at index k is found when it is the first with the id |
| ChatStore.RetitleKeepsContent | src/store/chat-store.ts:173-177 | retitling keeps every chat's id, messages, agent, client and creation time, and sets the title of the matching ones |
| ChatStore.EmptyPatch | src/store/chat-store.ts:188-192 | an empty patch leaves every client unchanged |
| ChatStore.UpdateClientEffect | src/store/chat-store.ts:188-192 | other clients are unchanged; a matching client becomes the merge of the patch into it, and gets the patch's id when the patch has one, so `data` can overwrite the id |
| ChatStore.MergeIdempotent | src/store/chat-store.ts:190 | merging the same patch twice is merging it once |
| ChatStore.DeleteById | src/store/chat-store.ts:193-208 | deleting a client or a document removes exactly the entries with that id |
| ChatStore.AddedClient | src/store/chat-store.ts:181-187 | the new client is last, carries the id and the draft's name, has no documents, and the earlier clients are unchanged |
| ChatRoute.SystemPrompt | src/app/api/chat/route.ts:142-173 | the commercial and contract agents get their own prompt when it is non-empty; any other agent type, including auto and a missing one, gets the legal prompt |
| ChatRoute.RecentHistory | src/app/api/chat/route.ts:180 | the last min(10, n) history entries, or none when the history is missing |
| ChatRoute.NormalizeAll | src/app/api/chat/route.ts:181-186 | one outgoing message per history entry |
| ChatRoute.NormalizeStep | src/app/api/chat/route.ts:181-186 | each turn of the history loop appends that entry's normalised message |
| ChatRoute.BuildMessages | src/app/api/chat/route.ts:175-189 | the pushes build the outgoing list: system prompt, recent history, user message |
| ChatRoute.OutgoingShape | src/app/api/chat/route.ts:175-189 | the outgoing list has the system prompt first with role "assistant". Then come the last min(10, n) history entries in order, any role but "user" becoming "assistant". The user's message is last. At most 12 entries |
| ChatRoute.UpperAll | src/app/api/chat/route.ts:210-211 | upper-casing keeps the number of matches |
| ChatRoute.Group | src/app/api/chat/route.ts:210-213 | a null match list adds nothing, and a group never holds more than its matches |
| ChatRoute.CollectSources | src/app/api/chat/route.ts:204-213 | the conditional pushes give the RN, RI, Lei and Cláusula groups in that order |
| ChatRoute.GroupContents | src/app/api/chat/route.ts:210-213 | Lei and Cláusula groups hold each match once, and only matches, in the order of first occurrence; the RN and RI groups are the upper-case forms of that same list, position by position, so every source is the upper-case form of a match and every match's upper-case form is a source; distinct matches pass through unchanged |
| ChatRoute.RnCaseVariantsBothKept | src/app/api/chat/route.ts:210 | deduplication happens before upper-casing, so "rn 465" and "RN 465" give two identical sources |
| ChatRoute.Post | src/app/api/chat/route.ts:153-231 | a malformed body is a 500 with its error; a missing or empty message is a 400 before any model call; otherwise the model gets the built list and the response is the answer's |
| ChatRoute.Answer | src/app/api/chat/route.ts:197-229 | success only with a non-empty model content, returned as the response with at most 5 sources; a missing or empty content is a 500 "Resposta vazia do modelo"; every failure is a 500 |
| ChatRoute.SourcesOrder | src/app/api/chat/route.ts:204-218 | the sources are the first five of the RN, RI, Lei, Cláusula groups; five RN sources hide every other group |
| DocumentsUpload.DetectDocumentType | src/app/api/documents/upload/route.ts:8-15 | on the lower-cased name, each type is returned exactly when a word of its group is present and no word of an earlier group (contract, policy, regulation, report) is; other exactly when no group's word is present |
| DocumentsUpload.ReportOnlyInEnglish | src/app/api/documents/upload/route.ts:12-13 | a report name always holds "report"; a "relatorio" or "relatório" name without a contract or policy word is a regulation |
| DocumentsUpload.ShortCodesAreRegulations | src/app/api/documents/upload/route.ts:12 | any name holding "rn" or "ri" and no contract or policy word is a regulation |
| DocumentsUpload.DetectCategory | src/app/api/documents/upload/route.ts:18-27 | on the upper-cased name, each category is returned exactly when its rule is met and no earlier rule (ANS-RN, ANS-RI, ANS-DO, ANS, SUSEP, Contratual) is; Outros exactly when no rule is met |
| DocumentsUpload.DiretrizIsInstitutional | src/app/api/documents/upload/route.ts:20-22 | ANS-DO only through "DO-"; a "DIRETRIZ" name holds "RI", so it is ANS-RN or ANS-RI |
| DocumentsUpload.LowerCaseRn | src/app/api/documents/upload/route.ts:19-20 | "rn" in any letter case makes the category ANS-RN |
| DocumentsUpload.RecordsAppend | src/app/api/documents/upload/route.ts:58-111 | one more file appends its record, or nothing for a nameless file |
| DocumentsUpload.RecordsCount | src/app/api/documents/upload/route.ts:58-111 | there is one record per named file |
| DocumentsUpload.RecordsPrefix | src/app/api/documents/upload/route.ts:58-111 | each turn of the loop appends that file's record |
| DocumentsUpload.ProcessFile | src/app/api/documents/upload/route.ts:68-110 | a named file's record carries its name, size, detected type and category, and its extracted text or "" |
| DocumentsUpload.Post | src/app/api/documents/upload/route.ts:29-117 | the handler returns 400 for no files, otherwise the records of the named files with the count message |
| DocumentsUpload.EmptyUploadRejected | src/app/api/documents/upload/route.ts:34-39 | an upload is refused exactly when no file was sent, with 400 "Nenhum arquivo enviado" |
| DocumentsUpload.RecordsFromFiles | src/app/api/documents/upload/route.ts:58-110 | every record comes from a named file, and every named file has its record |
| DocumentsUpload.AllNamed | src/app/api/documents/upload/route.ts:58-110 | when every file is named there is one record per file, in input order |
| DocumentsUpload.FailedExtraction | src/app/api/documents/upload/route.ts:68-99 | a failed or empty extraction keeps the file's record, with content "" |
| DocumentsUpload.MessageCount | src/app/api/documents/upload/route.ts:113-117 | the message starts with the number of records, which reads back from its leading digits |
| PdfUpload.PageTextStep | app/api/upload/route.ts:23-30 | each item appends its gap and its string |
| PdfUpload.RenderPage | app/api/upload/route.ts:21-30 | the `lastY` loop computes the page text: item strings in order, "\n" before an item exactly when its position differs from the previous one's |
| PdfUpload.PageNewlines | app/api/upload/route.ts:24-28 | the page's newlines are the items' own plus one per change of position |
| PdfUpload.NewlinesConcat | app/api/upload/route.ts:25-27 | newlines add up over concatenation |
| PdfUpload.GapNewlines | app/api/upload/route.ts:24-27 | a gap is made only of newlines |
| PdfUpload.PageLength | app/api/upload/route.ts:23-30 | the page is as long as its items plus one character per change of position |
| PdfUpload.FirstItemUnprefixed | app/api/upload/route.ts:24-25 | the page text starts with the first item's string |
| PdfUpload.OneLine | app/api/upload/route.ts:24-25 | items all at one position are simply concatenated |
| PdfUpload.RenderedPages | app/api/upload/route.ts:31 | one page per rendered page |
| PdfUpload.Pages | app/api/upload/route.ts:31-39 | one page per rendered page, or exactly one when none rendered |
| PdfUpload.RenderedPageAt | app/api/upload/route.ts:31 | page i is the trimmed text of the i-th rendered page |
| PdfUpload.PagesTrimmed | app/api/upload/route.ts:31-38 | every page is already trimmed |
| PdfUpload.RenderedStep | app/api/upload/route.ts:31 | each render pushes its trimmed text after the earlier pages |
| PdfUpload.CollectPages | app/api/upload/route.ts:17-39 | the callbacks and the fallback give the page list: trimmed rendered pages in order, or the trimmed fallback text alone |
| PdfUpload.PageDocuments | app/api/upload/route.ts:43-53 | never more documents than pages |
| PdfUpload.DocumentsArePages | app/api/upload/route.ts:43-52 | every document is a non-blank page numbered by its position plus one, with the request's notebook id and file name |
| PdfUpload.EveryPageWritten | app/api/upload/route.ts:43-52 | every non-blank page has its document, numbered by its position plus one, so blank pages leave gaps |
| PdfUpload.PageNumbersIncrease | app/api/upload/route.ts:43-53 | the documents come in increasing page order |
| PdfUpload.PageCollection.constructor | app/api/upload/route.ts:42 | the collection starts empty |
| PdfUpload.PageCollection.Commit | app/api/upload/route.ts:54 | the batched writes land together, in order |
| PdfUpload.BatchPages | app/api/upload/route.ts:43-53 | the `forEach` builds the batch of page documents |
| PdfUpload.Post | app/api/upload/route.ts:5-61 | the response is the specified one, and the collection gains exactly the written page documents |
| PdfUpload.RejectedWritesNothing | app/api/upload/route.ts:11-60 | a missing file or notebook id is a 400 "Dados faltando", a parser error a 500 "Erro no processamento"; neither writes anything; otherwise the upload is saved |
| PdfUpload.CountIncludesBlankPages | app/api/upload/route.ts:36-56 | the reported count is the number of pages, blank ones included: one when only the fallback ran, never fewer than the documents written |
| PdfUpload.BlankPageSkipped | app/api/upload/route.ts:44 | a page whose text is only whitespace writes no document |

## Left out

- `cosineSimilarity` (src/lib/rag-service.ts:102-116) is floating-point code and is not modelled. The searches take the score as a parameter `sim` from two vectors to a real. Its NaN for a zero vector, and the effect of NaN on the sort, are not modelled.
- RagEmbedding.Embedding: `Math.sin(hash + i) * 0.5` is not computed. Each entry stands for its argument `hash + i`, so only equality of vectors is meaningful.
- Stored vectors are kept as vectors. The `JSON.stringify`/`JSON.parse` round trip of the source is taken as exact.
- Prisma, Firestore, pdf-parse and the z-ai calls are parameters:
  - the document map and the embedding rows;
  - the page collection;
  - the parse outcome;
  - the completion and extraction outcomes.
  Only their effect on the modelled state is kept; their failures after the handler starts are not modelled, except as the parse and completion outcomes.
- The filesystem writes of the documents upload (src/app/api/documents/upload/route.ts:42-65) and `file.arrayBuffer()` are not modelled.
- The outer `catch` of the documents upload (src/app/api/documents/upload/route.ts:118-127) is not modelled. It answers 500 when the form data cannot be read, when the upload directory or a file cannot be written, or when `ZAI.create()` (src/app/api/documents/upload/route.ts:56) fails, since that call sits outside the inner try.
- ChatRoute.Post: a failing `ZAI.create()` (src/app/api/chat/route.ts:170) is modelled as a thrown completion. The response is the same 500, but the handler reports the message list as sent, whereas the source fails before building it.
- The commit failure caught at app/api/upload/route.ts:57-60 is not modelled; only a parser error reaches that branch.
- `generateId()`, `new Date()`, `Date.now()` and the `created_at` timestamp are parameters or not modelled.
- The regular expressions of the chat route (src/app/api/chat/route.ts:205-208) are not modelled. Their match lists are given by a parameter `find` from the answer to the four lists.
- The agent prompt texts (src/app/api/chat/route.ts:1-139) are a parameter. ChatRoute.SystemPrompt does not model lookups of `Object.prototype` keys such as "toString" in `AGENT_PROMPTS`; such a type gets the legal prompt in the model.
- ChatStore.Store.AddMessage: `generateId()` is called once per matching chat in the source; the model gives every matching chat the same message id.
- The `persist` storage layer, `setUser` and the UI setters (`sidebarOpen`, `piriDocsOpen`, `isLoading`) of the store are not modelled.
- The GET handler of the documents upload route (src/app/api/documents/upload/route.ts:130-147) is not modelled. It always answers with an empty list.
- JsBuiltins.ToLower and JsBuiltins.ToUpper map ASCII and Latin-1 letters only. Other case mappings of Unicode, and the "ß" to "SS" expansion, are not modelled.
- Strings are sequences of Unicode scalar values. JavaScript indexes UTF-16 code units, so `slice` and lengths agree only on text inside the Basic Multilingual Plane.
- RagSearch.SortByScore is a functional stable insertion sort on values. The source's in-place `sort` and the aliasing of `results` are not modelled.
- PdfUpload: an item's vertical position is an opaque type compared with Dafny equality. JavaScript `===` on a NaN position is not modelled.
- PdfUpload.Post: the file object is given by its name; its truthiness is whether the name is present. A missing `file.name` is not modelled.
- DocumentsUpload.Post: `formData.getAll` always returns an array, so the `!files` test is modelled only through the empty list. File-object truthiness is modelled through `file.name` alone.
