# PDF chat: streamed answers, message log and retrieval bookkeeping

This project models the core of a PDF question-answering application in Dafny.
The application has two halves.

The **browser client** (`pdf-chat-ui/src/App.jsx`) keeps the conversation as an
ordered log of turns that is changed only through a reducer. To send a question
it appends the question and an empty answer turn. It then reads the streamed
answer chunk by chunk and patches the answer turn whenever its pacing policy
allows a flush. The send ends in one of three ways:

- the stream completes;
- the user stops it, which appends a "generation stopped" marker;
- it fails, which replaces the answer with an error turn.

The **server** (`pdfbot/`) covers these steps:

- It turns an uploaded PDF into one text (`read_pdf`).
- It cuts that text into overlapping token windows (`chunk_text`).
- It lists the stored documents from chunk metadata (`list_documents`).
- It selects the chunks a deletion removes (`delete_document`).
- It builds a token-budgeted context from retrieved chunks (`build_context`).
- It guards the streamed answer with fixed messages (`answer_question_stream`).

The modules follow that structure:

- `Base`: `Option` and `Result`.
- `Text`:
  - JavaScript's `\s` and Python's `str.isspace`, which are different character sets.
  - Python's `str.strip` and `str.join`.
  - Decimal rendering of integers.
  - The UTF-16 length that JavaScript's `.length` reports.
- `MessageLog`: the reducer and its actions, and the replay of a list of dispatched actions.
- `Pacing`: the flush decision of the read loop.
- `Assembler`: the read loop as a fold over the chunks read. Each chunk is decoded text plus the clock reading taken after it arrived.
- `Session`: `sendMessage` and `stopGeneration`. The network reply and the clock readings are inputs. A send's effect is the list of reducer actions it dispatched, replayed on the log.
- `Retrieval`: `build_context`, `list_documents`, `delete_document` and the guards of `answer_question_stream`. The collection is three aligned lists: ids, metadata and texts.
- `Ingest`: `read_pdf` over the list of page extractions, and `chunk_text` over a token list, with Python's slice and `range` rules written out.

These are parameters rather than modelled:

- the tokenizer (`count`, `encode`, `decode`);
- the similarity search (`retrieved`, `retrievedMetas`);
- the completion stream (`deltas`);
- the clock (`now`, `t0`, `errorNow`, and each chunk's `now`).

Some behaviours of the code are easy to misread. The model follows the code each time:

- `REMOVE_LAST_MESSAGE` on an empty log gives an empty log, because JavaScript's `slice(0, -1)` does. It is not an error.
- A failure in the middle of the stream does not mark the partial answer as errored. The code removes the answer turn, including its partial text, and appends a new error turn (`App.jsx:962-973`). `Session.SendFailureReplacesAnswer` states this.
- A stop does not flush the held-back buffer. Even with the abort branch corrected (`Session.Send`), only text already flushed is kept before the marker. As written, that text is lost as well (see "## Findings").
- The contents dispatched for the answer are not strictly increasing at the end of the stream. Whenever any text was read, the last content is dispatched at least twice: `App.jsx:946-950` repeats the last flush, and a non-empty held-back buffer adds a flush of the whole text first (`App.jsx:902-907`). A stream with no text dispatches `""` once. `Assembler.Assemble` states growth as "each is a prefix of the next", and `Assembler.RunSpec` states strict growth for the flushes inside the loop.
- Turns have no status field. The only terminal marking is the `error` flag on the error turn and the stop marker in the content.

## Model

| member | source | states |
|---|---|---|
| `MessageLog.Add` | pdf-chat-ui/src/App.jsx:27-28 | `ADD_MESSAGE` puts the payload last; the length grows by one and every earlier turn is unchanged |
| `MessageLog.UpdateLast` | pdf-chat-ui/src/App.jsx:29-32 | `UPDATE_LAST_MESSAGE` changes only the last turn's content; the length and every other turn are kept, and an empty log stays empty |
| `MessageLog.RemoveLast` | pdf-chat-ui/src/App.jsx:33-34 | `REMOVE_LAST_MESSAGE` drops exactly the last turn; on an empty log it is a no-op |
| `MessageLog.UpdateById` | pdf-chat-ui/src/App.jsx:35-38 | `UPDATE_MESSAGE_BY_ID` sets the content of every turn with the id; ids, roles, error flags, order and length are untouched, and other turns keep their content |
| `MessageLog.RemoveUndoesAdd` | pdf-chat-ui/src/App.jsx:27-34 | removing the last turn after adding one gives back the original log |
| `MessageLog.UpdateUnknownIdIsNoOp` | pdf-chat-ui/src/App.jsx:35-38 | patching an id that no turn carries leaves the log exactly as it was |
| `MessageLog.UpdateByIdOverwrites` | pdf-chat-ui/src/App.jsx:35-38 | two patches of the same id: only the later content survives |
| `MessageLog.UpdateByIdCommutes` | pdf-chat-ui/src/App.jsx:35-38 | patches of two different ids can be applied in either order |
| `MessageLog.UpdateLastAgreesWithUpdateById` | pdf-chat-ui/src/App.jsx:29-38 | when the last turn's id is unique, patching the last turn and patching by that id agree |
| `MessageLog.FindIsFirstMatch` | pdf-chat-ui/src/App.jsx:954 | `find` by id returns nothing exactly when no turn has the id; otherwise it returns the first turn that has it |
| `MessageLog.ContentAfterUpdate` | pdf-chat-ui/src/App.jsx:35-38 | after a patch, looking the id up gives the new content; every other id reads as before |
| `MessageLog.ReplayAppend` | pdf-chat-ui/src/App.jsx:25-44 | dispatching two batches of actions one after the other is dispatching their concatenation |
| `MessageLog.FindSkipsPrefix` | pdf-chat-ui/src/App.jsx:954 | a lookup skips any leading turns that do not carry the id |
| `Pacing.EndsWithSentenceBreak` | pdf-chat-ui/src/App.jsx:923 | `/[.!?\n]\s*$/` holds exactly when some `.`, `!`, `?` or newline is followed only by whitespace up to the end |
| `Pacing.ShouldFlush` | pdf-chat-ui/src/App.jsx:923-927 | a flush needs at least 30 ms since the last update and a non-empty buffer |
| `Assembler.Step` | pdf-chat-ui/src/App.jsx:912-943 | shown text plus held-back text grows by exactly the chunk; an update is dispatched exactly when the pacing policy says so; a flush dispatches the strictly longer shown text and resets the buffer, the time and the word flag; otherwise the word flag becomes "buffer ends inside a word" |
| `Assembler.Run` | pdf-chat-ui/src/App.jsx:898-944 | over any chunks, shown plus held-back text is all text read; the dispatched contents grow strictly, each is a prefix of the final shown text, the last one is the final shown text, and the word flag stays coherent |
| `Assembler.Finish` | pdf-chat-ui/src/App.jsx:900-909 | at the end of the stream, a non-empty buffer is flushed and the full text is dispatched again; everything dispatched is all the text read |
| `Assembler.Assemble` | pdf-chat-ui/src/App.jsx:898-950 | a stream read to its end dispatches at least one content; each content is a prefix of every later one, and the last is the concatenation of every chunk's text |
| `Assembler.FinalContentIndependentOfPacing` | pdf-chat-ui/src/App.jsx:898-950 | two streams carrying the same text end with the same content, whatever their chunk boundaries and clock readings |
| `Assembler.RunKeepsWordFlag` | pdf-chat-ui/src/App.jsx:936-942 | after any number of reads, `inWord` is set exactly when the buffer is non-empty and does not end in whitespace |
| `Text.JsIsBlank` | pdf-chat-ui/src/App.jsx:838 | `!s.trim()` holds exactly when every character is JavaScript whitespace |
| `Text.Strip` | pdfbot/app/services.py:87 | `str.strip` removes whitespace runs at both ends only: the result is a slice of the input with whitespace on both sides, it neither starts nor ends with whitespace, and it is empty exactly when the input is all whitespace |
| `Text.Join` | pdfbot/app/services.py:99 | joining nothing gives the empty string; otherwise the result starts with the first piece |
| `Text.DecimalRoundTrip` | pdf-chat-ui/src/App.jsx:848-849 | reading back the decimal digits of a timestamp gives the timestamp |
| `Text.DecimalInjective` | pdf-chat-ui/src/App.jsx:848-849 | different timestamps render as different digit strings |
| `Text.Utf16Length` | pdf-chat-ui/src/App.jsx:925 | `.length` counts between one and two UTF-16 units per character |
| `Session.SendWith` | pdf-chat-ui/src/App.jsx:836-980 | a send the guard refuses changes nothing and dispatches nothing; an accepted send dispatches the question turn and then the empty answer turn first, leaves the log as the replay of everything it dispatched, clears the input, and clears the sending and streaming flags |
| `Session.Send` | pdf-chat-ui/src/App.jsx:836-980 | the corrected send: the same guard and opening turns, and the log is the replay of what was dispatched |
| `Session.SendAsWritten` | pdf-chat-ui/src/App.jsx:836-980 | the send as written: a refused send changes nothing; an accepted one dispatches the question turn and then the empty answer turn first, and clears the sending and streaming flags |
| `Session.StopReenablesSend` | pdf-chat-ui/src/App.jsx:767-775 | `stopGeneration` clears the busy flag the send guard tests (`App.jsx:838`), and nothing the guard reads besides it changes: afterwards any question that is not blank, with a document selected or none uploaded, is accepted |
| `Session.StopIsIdempotent` | pdf-chat-ui/src/App.jsx:767-775 | a second stop signals nothing and changes nothing, and a stop never touches the log |
| `Session.IdsDiffer` | pdf-chat-ui/src/App.jsx:848-849 | the question's id and the answer's id never clash |
| `Session.ShownText` | pdf-chat-ui/src/App.jsx:898-944 | the text already shown when reading ends is a prefix of all the text received |
| `Session.LiveLog` | pdf-chat-ui/src/App.jsx:851-950 | after the opening turns and the streamed patches, the log is the old log, then the question, then the answer holding the text shown so far |
| `Session.SendCompletes` | pdf-chat-ui/src/App.jsx:836-950 | a completed stream leaves the old log, then the question, then an answer whose content is every chunk's text in order; by `Session.AsWrittenAgrees` the send as written ends the same way |
| `Session.SendFailureReplacesAnswer` | pdf-chat-ui/src/App.jsx:952-975 | on any failure (fetch rejected, status not 2xx, read failed) the answer and its partial text are dropped and one error turn with the failure's message follows the question; by `Session.AsWrittenAgrees` the send as written ends the same way |
| `Session.SendStatusError` | pdf-chat-ui/src/App.jsx:877-882 | a non-2xx status, whatever was read after it, ends with the old log, the question and one error turn: "❌ Document not found. Please reselect." for 404 and "❌ Failed to get response" for any other status; the send as written and the corrected send agree |
| `Session.AsWrittenAgrees` | pdf-chat-ui/src/App.jsx:952-975 | the send as written and the corrected send differ only in the abort branch: for every reply that is not a stop they leave the same client and dispatch the same actions |
| `Session.SendStoppedKeepsShownText` | pdf-chat-ui/src/App.jsx:953-961 | corrected stop: the answer keeps the text already shown, followed by the stop marker |
| `Session.StopAsWrittenDiscardsShownText` | pdf-chat-ui/src/App.jsx:953-961 | stop as written: the answer ends as the bare stop marker, whatever had been shown |
| `Session.StopAfterOneSentence` | pdf-chat-ui/src/App.jsx:954-959 | a concrete stop after "Hello world. " was shown: as written the sentence is lost, corrected it is kept |
| `Retrieval.Piece` | pdfbot/app/services.py:82-88 | a formatted chunk starts with the header's newline and ends with the body's newline, so it is never empty |
| `Retrieval.Pieces` | pdfbot/app/services.py:81-88 | candidate pieces pair texts and metadata position by position and stop at the shorter list |
| `Retrieval.CostMonotone` | pdfbot/app/services.py:92-97 | a longer run of pieces never costs fewer tokens |
| `Retrieval.TakeWithinBudget` | pdfbot/app/services.py:78-97 | the kept pieces are a leading run of the candidates whose total tokens are within the budget; when it stops early, adding the next piece would exceed the budget |
| `Retrieval.BuildContext` | pdfbot/app/services.py:77-99 | the context is the kept leading pieces joined by newlines; they fit the budget, and the first piece left out would have overflowed it |
| `Retrieval.NoLongerPrefixFits` | pdfbot/app/services.py:92-94 | greedy stop: once a piece overflows the budget, no longer run of pieces fits, even if a later piece is small |
| `Retrieval.ContextEmptyIffNoPieces` | pdfbot/app/services.py:99 | the context is empty exactly when no piece was kept |
| `Retrieval.FirstIndex` | pdfbot/app/services.py:179-189 | the position found is the first chunk with that document id, or the end when no chunk has it |
| `Retrieval.Distinct` | pdfbot/app/services.py:179-191 | the listed ids are exactly the ids present; each entry is the id and source of that document's first chunk; entries appear in first-seen order, so no id repeats |
| `Retrieval.DistinctStep` | pdfbot/app/services.py:186-190 | one more chunk: an id already listed changes nothing, and a new id is listed last |
| `Retrieval.ListDocuments` | pdfbot/app/services.py:170-191 | an empty collection lists nothing; otherwise every present id is listed exactly once |
| `Retrieval.SelectIds` | pdfbot/app/services.py:199-203 | an id is selected exactly when it is paired, in the zip of ids and metadata, with metadata naming the document |
| `Retrieval.DeletePlan` | pdfbot/app/services.py:193-207 | the deletion removes exactly the ids paired with the document's metadata; when none match, nothing is removed and no file is named |
| `Retrieval.RemoveIds` | pdfbot/app/services.py:209 | after the store's delete, exactly the records whose id was not selected remain, aligned and in order |
| `Retrieval.SelectedBelongs` | pdfbot/app/services.py:199-203 | with unique ids, an id is selected exactly when its own chunk belongs to the document |
| `Retrieval.DeleteRemovesExactlyTheDocument` | pdfbot/app/services.py:193-209 | deleting a document from a well-formed store removes all of its chunks, keeps every other chunk, and drops the document from the list |
| `Retrieval.NonEmptyDeltas` | pdfbot/app/services.py:163-167 | no reply is empty; every reply is the text of some delta, and every delta with text is replied; the replies concatenated are the text of all deltas in order, so no text is lost, added or reordered |
| `Retrieval.AnswerStream` | pdfbot/app/services.py:101-168 | guards in order: a whitespace-only question, an empty store, an unknown document, then an empty retrieval, each yields its one fixed message; otherwise the prompt wraps the budgeted context and the question, and the replies are the non-empty deltas |
| `Ingest.Extracted` | pdfbot/utils.py:9-12 | the texts kept are those of pages whose extraction returned a non-empty string: each kept text is some page's text, every page with text contributes its text, and the kept texts run together are every page's text in page order |
| `Ingest.AllPySpaceAppend` | pdfbot/utils.py:14 | a concatenation is all whitespace exactly when both parts are |
| `Ingest.ReadPdf` | pdfbot/utils.py:5-17 | the text is the extracted page texts joined by newlines with a final newline; it is an error, with the fixed message, exactly when every page is empty or whitespace only |
| `Ingest.SliceBound` | pdfbot/utils.py:29 | a Python slice bound within the sequence is kept, and one past the end is clamped to the end |
| `Ingest.PySlice` | pdfbot/utils.py:29 | `tokens[a:b]` with `0 <= a <= b` is the part from `a` to `b`, cut off at the end |
| `Ingest.StartIsMultiple` | pdfbot/utils.py:28 | window starts are 0, step, 2·step, … |
| `Ingest.WindowAt` | pdfbot/utils.py:28-29 | window `k` is `tokens[k·step : k·step + chunk_size]`, and its start is below the end |
| `Ingest.WindowsCount` | pdfbot/utils.py:28 | there are just enough windows for their starts to pass the last token: ceil(n / step) of them |
| `Ingest.ChunkTokens` | pdfbot/utils.py:26-31 | a zero step is the `range` error, a negative step gives no window; otherwise the windows are laid out at every step from 0 and there are ceil(n / step) of them |
| `Ingest.ChunkText` | pdfbot/utils.py:20-33 | each chunk is the decoding of its token window; the errors and counts are those of the windows |
| `Ingest.IngestChunks` | pdfbot/app/services.py:33-34 | ingestion uses the defaults: windows of 500 tokens every 400 tokens |
| `Ingest.WindowShape` | pdfbot/utils.py:29 | with 0 <= overlap < chunk_size, each window is `tokens[start : min(start + chunk_size, n)]`; it is never empty, has at most chunk_size tokens, and is shorter only when it reaches the end |
| `Ingest.WindowsOverlap` | pdfbot/utils.py:28-29 | a full window's last `overlap` tokens are the next window's first `overlap` tokens |
| `Ingest.WindowsCover` | pdfbot/utils.py:26-31 | every token lies in some window (window `j / step`) at the matching offset |
| `Ingest.WindowsReassemble` | pdfbot/utils.py:26-31 | dropping each window's overlap and concatenating gives back exactly the token list |

## Left out

- Rendering, markdown, modals, toasts, scrolling and the mobile menu: presentation only.
- The network, `fetch` and the HTTP endpoints: the reply is an input (rejected, or a status plus the chunks read and how reading ended).
- `TextDecoder`: chunks are modelled as already-decoded text, so a multi-byte character split across reads is not modelled.
- The 5 ms pause after each flush: it only yields to the renderer.
- The `AbortController` mechanics: an abort appears as the read or the `fetch` rejecting with an `AbortError`. `Stop` models the flag changes.
- React's batching of state updates: each dispatch is applied in order to the log.
- The two `Date.now()` readings for the question id and the answer id are one reading, `now`, here. The ids differ by their prefixes either way.
- The vector store's query, the embedding model, the completion model and the tokenizer: they are parameters. Token counts are natural numbers, and nothing is assumed about `decode(encode(x))`.
- Removing upload files from disk in `delete_document`: the model computes which file names are removed but does no file I/O.
- `ingest_document`'s storage calls, `main.py`, `config.py`, `schemas.py` and the logger: they are outside this model. `config.py`'s `CHUNK_SIZE`/`CHUNK_OVERLAP` (800/150) are not used by ingestion, which calls `chunk_text` with its defaults of 500/100.
- Exceptions from PDF parsing and from the tokenizer are not modelled.
- `Pacing.ShouldFlush`: its ensures states only what a flush requires, a 30 ms gap and a non-empty buffer. The exact rule is its definition, and `Assembler.Step` states flushes in terms of it.
- `Session.SendAsWritten`: its ensures covers only the guard and the opening turns. `Session.AsWrittenAgrees` equates it with `Session.Send` on every reply that is not a stop. The discrepancy in its abort branch is stated by `Session.StopAsWrittenDiscardsShownText` and `Session.StopAfterOneSentence`.
- `Session.Question`: the argument of `sendMessage` is taken to be a string. The Send button passes its click event instead (`onClick={sendMessage}`, `App.jsx:1301`). `messageContent` is then the event object, and `messageContent.trim()` (`App.jsx:838`) throws before any state changes. So only Enter (`App.jsx:986-991`) and the quick actions (`App.jsx:1000-1002`) send a question. A button click is not modelled.

## Findings

| source | as written | input that shows it | evidently intended | confidence | as-written member | corrected member |
|---|---|---|---|---|---|---|
| pdf-chat-ui/src/App.jsx:954 | On abort, the answer's content is read from `messageState` as captured when `sendMessage` began. That snapshot does not contain the answer turn, so the lookup gives `''` and the answer becomes only the stop marker. | Empty log and question "Hi". A 200 reply whose one chunk "Hello world. " arrives at time 100, with `t0 = 0`, then the read rejects with `AbortError`. | The answer keeps "Hello world. " followed by the stop marker. | not executed | `Session.StopAsWrittenDiscardsShownText` | `Session.SendStoppedKeepsShownText` |
