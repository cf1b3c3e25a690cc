# Multi-Doc RAG chat: session logic, fallback decider and transcript builder

This project models the core of a Streamlit application that answers questions about
uploaded PDF files through a retrieval chain, offers a web-mode fallback when the chain's
answer hedges, and exports the chat as a PDF. Almost everything the application does is a
library call; what belongs to the application itself is modelled here, in five modules:

- `Text` (`text.dfy`): ASCII lower-casing and substring containment, the two Python string
  operations the fallback decider uses.
- `HedgeDetector` (`hedge.dfy`): `answer_not_in_docs`, a case-insensitive substring test
  against eight fixed trigger phrases.
- `Session` (`session.dfy`): the session record (`conversation`, `chat_history`,
  `web_mode`, `pending_question`) and its events: a chat submission (web mode first, then the
  retrieval chain, then a warning), "Process", accepting and declining the fallback, and the
  one-shot web answer. `Step` is the session as a pure reducer over a `State` value; the class
  `Session.Session` holds the four fields and has one method per event, each tied to `Step`.
  Beside the four fields the record carries `offer`: the question the two fallback buttons
  were drawn for, while they are on screen (the `user_question` their handler closes over).
  A button press when no buttons are shown changes nothing.
  The retrieval chain is a value holding a vector-store handle and its conversation memory;
  asking it a question and running the ingestion pipeline are oracles in a `Backend` value,
  either of which may fail (a library exception), which stops the interaction with the
  record unchanged.
- `Transcript` (`transcript.dfy`): the list of flowables ("story") `export_chat_pdf` builds
  in its loop: title, spacer, date line, spacer, then a labelled paragraph and a spacer per
  message, with line feeds turned into `<br/>`.
- `Chat` (`chat.dfy`): the values shared by the two (messages, uploads, chain handle, replies).

The application starts from the record `main` initialises (`conversation = None`,
`chat_history = []`, `web_mode = False`, `pending_question = None`); that is
`Session.Initial` and the class constructor. An empty or absent chat input is a submission
that does nothing, as Python's `if user_question:` treats it.

Behaviour of the code worth knowing, all of it modelled as written:

- `pending_question` is written but never read: the web path answers the question just
  asked, not the one that was offered the fallback (`Session.AcceptThenAsk`).
- The web-mode "answer" is a fixed banner followed by the question itself; no model is
  consulted (`web_search_answer` is never called).
- "Process" replaces the chain by a new one with empty memory, but neither clears the chat
  history nor the fallback flag.
- The chat history is whatever the chain returns; the application does not itself append
  two turns per question, so no such growth is claimed.

## Model

| member | source | states |
|---|---|---|
| `Text.LowerChar` | app.py:91 | ASCII upper-case letters map to their lower-case letter (code point minus 32), every other character is kept, and no result is an upper-case letter |
| `Text.Lower` | app.py:91 | lower-casing keeps the length and lowers each character in place |
| `Text.LowerIdempotent` | app.py:91 | a lowered string has no upper-case letter and lowering it again changes nothing |
| `Text.Contains` | app.py:92 | the left-to-right search for `t` in `s` is true exactly when `t` occurs at some position of `s` |
| `Text.ContainsTransitive` | app.py:92 | what occurs in a substring of `b` occurs in `b` |
| `Text.ContainsLower` | app.py:91-92 | lowering preserves containment |
| `HedgeDetector.AnyContained` | app.py:92 | `any(t in s for t in ts)` holds exactly when some listed phrase is contained in `s` |
| `HedgeDetector.AnswerNotInDocs` | app.py:79-92 | the detector fires exactly when one of the eight triggers occurs at some position of the lower-cased answer |
| `HedgeDetector.EmptyAnswerIsNotHedge` | app.py:80-92 | the empty answer never fires the detector |
| `HedgeDetector.TriggerFires` | app.py:80-92 | any answer with one of the eight triggers inside it fires the detector |
| `HedgeDetector.CaseInsensitive` | app.py:91-92 | an answer and its lower-cased form get the same verdict |
| `HedgeDetector.SameLowerSameVerdict` | app.py:91-92 | answers that differ only in the case of ASCII letters get the same verdict |
| `HedgeDetector.MonotoneUnderContainment` | app.py:92 | if a hedging answer is contained in a longer one, the longer one hedges too |
| `HedgeDetector.NoLetterONoHedge` | app.py:80-89 | every trigger contains the letter o, so an answer with neither o nor O never hedges |
| `HedgeDetector.SampleHedge` | app.py:79-92 | "The document does not contain this information." hedges |
| `HedgeDetector.SamplePlain` | app.py:79-92 | "The capital is Paris." does not hedge |
| `Session.WebChatText` | app.py:195-199 | the web-mode text is the fixed banner followed by the question, nothing more |
| `Session.WebQuestionInverse` | app.py:195-199 | a web-mode reply is exactly the fixed banner followed by the question, and the question can be read back from it |
| `Session.Route` | app.py:220-232 | an empty input does nothing; otherwise web mode is taken whenever set, even with a conversation; the chain only without web mode and with a conversation; the warning only with neither |
| `Session.Step` | app.py:111-258 | web path: shows the banner and the question and clears both fallback fields; chain path: the returned history replaces ours and becomes the chain's memory, and a hedging answer is replaced by the offer, whose buttons carry the question; a failing chain or pipeline changes nothing; warning and empty input change nothing; the buttons are on screen exactly after a hedge; "Yes" stores the offered question and sets the flag together, "No" changes nothing; "Process" with no upload changes nothing, otherwise installs a new chain with empty memory |
| `Session.OfferOnlyOnHedge` | app.py:131-151 | on the chain path the fallback offer is shown exactly when the answer hedges; otherwise the answer itself is typed |
| `Session.StepKeepsInv` | app.py:140-203 | every event keeps "web mode set exactly when a pending question is stored", "no buttons in web mode" and "no history without a conversation" |
| `Session.RunKeepsInv` | app.py:206-258 | that invariant holds after any sequence of interactions |
| `Session.WebAnswersBounded` | app.py:193-203 | the fallback is one-shot: web-path answers never outnumber acceptances (plus one if the flag was already set) |
| `Session.PendingWithin` | app.py:131-142 | a pending question is always one already known or one the chain answered with a hedge on the way |
| `Session.PendingWasHedged` | app.py:131-142 | from a record with no pending question and no offer, any question that ends up pending is one whose answer hedged |
| `Session.IndexOnlyByProcess` | app.py:250-258 | without a "Process" on a non-empty upload list the chain's vector store never changes; questions change only its memory |
| `Session.MemoryIsHistory` | app.py:112-117 | after a successful question the chain's memory is the history the session holds |
| `Session.AcceptThenAsk` | app.py:140-203 | pressing "Yes" on the offer for `q`, then asking `q2`, shows the web reply for `q2` and restores the record with both flags cleared |
| `Session.Session.constructor` | app.py:212-238 | the initialised record: no chain, empty history, web mode off, no pending question |
| `Session.Session.HandleWebChat` | app.py:193-203 | shows the banner followed by the question and clears both fallback fields whatever the question; conversation and history untouched |
| `Session.Session.HandleUserInput` | app.py:111-151 | stores the history the chain returns, also as the chain's memory; draws the buttons for the question and shows the offer when the answer hedges, the answer otherwise; a failing chain changes nothing; the fallback fields untouched |
| `Session.Session.Submit` | app.py:218-232 | the new record and the display are those of `Step` on a submission; keeps the invariant |
| `Session.Session.Process` | app.py:250-260 | the new record and the display are those of `Step` on "Process"; keeps the invariant |
| `Session.Session.AcceptFallback` | app.py:139-143 | with the buttons on screen, stores their question as pending and sets web mode together; without them changes nothing |
| `Session.Session.DeclineFallback` | app.py:145-147 | shows the info text and changes nothing but removing the buttons |
| `Session.Session.ExportStory` | app.py:262-266 | a story is built exactly when the history is non-empty, and it is the transcript story of that history |
| `Transcript.DateLine` | app.py:175-176 | the date line is the italic "Generated on: " opening, the date, and the closing tag |
| `Transcript.Label` | app.py:181-184 | the question label exactly for human messages, the answer label for every other class |
| `Transcript.MessageParagraph` | app.py:186-187 | a body-text paragraph of the label, a space and the converted content |
| `Transcript.Header` | app.py:170-177 | four blocks: the title paragraph, a spacer, the date paragraph, a spacer |
| `Transcript.MessageBlocks` | app.py:179-188 | two blocks per message |
| `Transcript.Story` | app.py:168-188 | 4 + 2·n blocks, the header first |
| `Transcript.BreakLines` | app.py:186 | the converted text holds no line feed, and text without line feeds is left as it is |
| `Transcript.RestoreBreakLines` | app.py:186 | on text without `<`, turning `<br/>` back into line feeds restores the original |
| `Transcript.BreakLinesAppend` | app.py:186 | the conversion works piecewise on a concatenation |
| `Transcript.MessageParagraphText` | app.py:181-187 | a message paragraph holds no line feed, starts with its role's label, and starts with the question label exactly for human messages |
| `Transcript.MessageBlocksShape` | app.py:179-188 | two blocks per message, in history order: message i's paragraph, then a 14-point spacer |
| `Transcript.StoryShape` | app.py:168-188 | the story has 4 + 2·n blocks: the four header blocks, then message i's paragraph at 4 + 2i and a spacer after it |
| `Transcript.HeaderHasNoRawLineFeeds` | app.py:170-177 | title and date line hold no line feed when the date holds none |
| `Transcript.MessageBlocksHaveNoRawLineFeeds` | app.py:179-188 | no message paragraph holds a line feed |
| `Transcript.StoryHasNoRawLineFeeds` | app.py:168-188 | with a date free of line feeds, no paragraph of the story holds one |
| `Transcript.BuildStory` | app.py:168-188 | the loop builds exactly the transcript story: 4 + 2·n blocks, message i's paragraph at 4 + 2i, no raw line feed |

## Left out

- `get_pdf_text`, `get_text_chunks`, `get_vectorstore`, `get_conversation_chain` (app.py:22-68): PDF parsing, LangChain's splitter, embeddings, FAISS and the Gemini model are library and network calls; "Process" runs them as the single oracle `Backend.build`.
- The retrieval chain's `invoke` (app.py:112-117): a model call with library-managed memory; it is the oracle `Backend.invoke`, given the chain with its memory and returning an answer and the new history (or a failure). That the chain's memory afterwards equals the history it returns is how the model reads `ConversationBufferMemory` (app.py:59-62); the library's own update rule is not modelled.
- Chain identity: chains are values, so two chains built from the same uploads with the same memory are equal; Python object identity is not modelled.
- Library exceptions: any exception from the chain or the pipeline is one outcome, `Raised`, after which the record is unchanged; their kinds and messages are not modelled.
- `web_search_answer` (app.py:94-108): a model call, and never called by the application.
- `type_writer` (app.py:70-77): a cosmetic animation with `time.sleep`; text it types is the `Typed` display.
- Rendering the earlier history as chat bubbles (app.py:119-126) and all widget layout: presentation only.
- Streamlit's rerun semantics: every submission and button press is one discrete event. The buttons are on screen from the hedging answer until the next interaction, and a press of one of them reaches its handler. In the framework itself the buttons are created inside `handle_userinput`, which the rerun caused by pressing them does not reach; the model does not capture that.
- reportlab rendering, the temporary file and the download button (app.py:156-166, 190-191, 266-274): I/O. Paragraph text is kept as the marked-up string handed to reportlab; the content is not escaped by the application and what reportlab makes of a stray `<` is not modelled.
- `datetime.now().strftime(...)` (app.py:175): the clock; the formatted date is a parameter.
- `Text.Lower`: models `str.lower()` on ASCII only, because the Unicode case tables are not modelled; non-ASCII letters (for example the Kelvin sign, which Python lowers to `k`) are kept, so an answer made to hedge only through such a mapping is judged not to hedge.
- html_template.py: constant CSS and HTML strings, not used by the modelled code.
