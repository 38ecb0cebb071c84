# Document chatbot core, modelled in Dafny

This project models the bookkeeping core of a document-chat service. The
service lets a user question a set of uploaded documents through a routing
agent with one retrieval tool per document. The model covers four parts:

- **Citations** (`citation.dfy`, module `Citation`). A retrieved passage becomes a
  citation: the date-stripped file name of its source, its 1-based page and,
  in proof mode, its text. Citations are compared by value, and a mutable
  `Citations` object gathers them into a set, one passage at a time.
- **The chatbot** (`chatbot.dfy`, module `Chatbot`). Tool names are derived from
  document file names by a character sanitizer. The citations of one answer
  are harvested from the agent's intermediate steps. The internal and the
  exported transcripts grow only when a prompt succeeds.
- **The session table** (`session_store.dfy`, module `SessionStore`). Rows are keyed
  by session id, and two operations act on them. Starting a session inserts a
  row or resets the existing one. Finalizing a session records its answer and
  end time, and fails for an unknown session.
- **The embedding factory** (`embedding_factory.dfy`, module `EmbeddingFactory`).
  It chooses a vendor and model name from arguments or the environment, finds
  the vendor's API key, builds the settings and model-name dicts, and rejects
  unknown vendors.

Support modules: `Results` (Option and Result), `JsonValues` (Python dicts and
lists as insertion-ordered JSON values), and `PathNames` (pathlib's `name` and
`stem`).

Some parts become parameters because their code is not part of this model:

- `Utils.remove_date_from_filename` (chatdoc/utils.py) is a function parameter
  `stripDate`.
- The environment read by `Utils.get_env_variable` is a map, and
  `EmbeddingFactory.GetEnv` looks a variable up in it (None when it is unset).
- The database clock `now()` is a parameter.
- The routing agent is a function from the prompt and the internal history to a
  failure or a result `(output, agent_history, intermediate_steps)`.

The model follows the code in these points:

- The session table (server_modules/models.py:11-16) has only the columns session_id, start_time, end_time and final_answer. It has no message-count column, and nothing reconciles one.
- `create_tools` returns its list of tools without comparing their names (chatdoc/chatbot.py:97). Tool names that collide after sanitizing are therefore kept. `Chatbot.ToolNamesCanCollide` exhibits two such files.
- Citations are listed in set order, not sorted by source and page.
- Restarting a session resets its row to `final_answer = {}`, while a first start leaves `final_answer` NULL.

## Model

| member | source | states |
|---|---|---|
| `Citation.DataclassEqIsEquality` | chatdoc/citation.py:8-53 | the frozen dataclasses' `__eq__` (same class, then equal field tuples) is exactly value equality of the citation datatype |
| `Citation.DataclassEq` | chatdoc/citation.py:8-53 | two citations compare equal only when both are of the same class and agree on source and page |
| `Citation.IntToString` | chatdoc/citation.py:35 | `str(page)`: a leading '-' exactly for a negative page, then decimal digits with no leading zero that read back as the page's magnitude |
| `Citation.FormatCitationText` | chatdoc/citation.py:28-61 | the text is " - {source} on page " followed by the page as `str` renders it, and for a proof citation then "; PROOF: {proof}" |
| `Citation.ProofTextExtendsBaseText` | chatdoc/citation.py:35-61 | a proof citation renders as the base citation of the same source and page followed by "; PROOF: " and the proof |
| `Citation.NatToStringRoundTrip` | chatdoc/citation.py:35 | the decimal digits rendered for a page read back as that page number |
| `Citation.ParentDict` | chatdoc/citation.py:23 | the base `__dict__` has exactly the keys source, page, text, in that order, holding the source, the page and the given text |
| `Citation.CitationDict` | chatdoc/citation.py:16-51 | `__dict__` has keys source, page, text in that order, plus proof last for a proof citation; its text entry is the rendered text of the citation itself |
| `Citation.Citations.ToDict` | chatdoc/citation.py:78-85 | the collection's dict holds one citation dict per element of the set, in the given iteration order, and the with_proof flag |
| `Citation.MakeCitation` | chatdoc/citation.py:97 | builds a proof citation exactly when proof mode is on, with the given source, page and (then) proof |
| `Citation.Citations.AddCitation` | chatdoc/citation.py:87-98 | the set afterwards is the old set plus that citation: it contains it and grows by at most one, and adding it again changes nothing |
| `Citation.CitationOf` | chatdoc/citation.py:106-111 | a passage's citation has source = date-stripped file name of metadata "source", page = metadata "page" + 1, proof = the passage text in proof mode |
| `Citation.MissingKey` | chatdoc/citation.py:107-109 | a malformed passage raises KeyError for "source" when that is missing, otherwise for "page" |
| `Citation.ValidPrefix` | chatdoc/citation.py:106-109 | the number of leading well-formed passages, after which the first malformed passage stops the loop |
| `Citation.Citations.GetUniqueCitations` | chatdoc/citation.py:100-111 | the set becomes the old set plus the citations of the passages before the first malformed one, without being cleared; the call raises the KeyError of that passage, or succeeds when there is none |
| `Citation.CitedMembers` | chatdoc/citation.py:106-111 | a citation is in the accumulated set iff some passage yields it |
| `Citation.OrderIndependent` | chatdoc/citation.py:98-111 | any permutation of the passages yields the same set of citations |
| `Citation.Cited` | chatdoc/citation.py:106-111 | every citation accumulated from the passages is a proof citation exactly when proof mode is on |
| `Citation.CitedSize` | chatdoc/citation.py:98 | the set gains at most one citation per passage |
| `Citation.RepeatedPassageAbsorbed` | chatdoc/citation.py:97-98 | citing the same passage twice gives the same set as citing it once |
| `Citation.SameCitation` | chatdoc/citation.py:97-111 | two passages collapse to one citation iff they share source and page and, with proof on, also their text |
| `Citation.UniqueWithoutProof` | chatdoc/citation.py:97 | without proof every citation is a base citation, so no two citations in the set share source and page |
| `Citation.ProofModeExample` | chatdoc/citation.py:97-111 | the passages (A,1,"x"), (A,1,"x"), (A,1,"y") give two citations with proof and one without |
| `PathNames.Name` | chatdoc/citation.py:108 | `Path(p).name` holds no '/', is never ".", and is no longer than the path |
| `PathNames.NameOfJoin` | chatdoc/citation.py:108 | the name of "dir/file" is "file" for any directory prefix |
| `PathNames.Stem` | chatdoc/chatbot.py:74 | `Path(p).stem` is a prefix of `Path(p).name` |
| `PathNames.StemOfFileName` | chatdoc/chatbot.py:74 | `Path(base + "." + ext).stem` is `base` |
| `Chatbot.DisplayNameOfPath` | chatdoc/chatbot.py:74-75 | the name a document is shown under is the date-stripped base name of its file, whatever its directory and extension |
| `Chatbot.SanitizeToolName` | chatdoc/chatbot.py:21-23 | the sanitized name has the length of the raw name and only characters in [a-zA-Z0-9_-] |
| `Chatbot.SanitizeCharacters` | chatdoc/chatbot.py:22-23 | allowed characters are kept in place and every other character becomes '-' |
| `Chatbot.SanitizeFixesExactlyToolNames` | chatdoc/chatbot.py:21-23 | sanitizing leaves a name unchanged iff every character of it is allowed |
| `Chatbot.SanitizeIdempotent` | chatdoc/chatbot.py:21-23 | sanitizing twice equals sanitizing once |
| `Chatbot.CreateTools` | chatdoc/chatbot.py:73-97 | one tool per key of the document dict |
| `Chatbot.ToolsNamedAfterDocuments` | chatdoc/chatbot.py:74-97 | tool i is named by sanitizing the date-stripped stem of key i, a name that re-sanitizing keeps, and its description is "useful when you want to answer questions about " followed by the unsanitized display name |
| `Chatbot.ToolNamesCanCollide` | chatdoc/chatbot.py:87-97 | "report.pdf" and "report.txt" yield two tools with the same name, which nothing rejects |
| `Chatbot.FlattenSourceDocuments` | chatdoc/chatbot.py:100-104 | flattening succeeds iff every intermediate step has "source_documents", else raises KeyError("source_documents") |
| `Chatbot.FlattenedMembers` | chatdoc/chatbot.py:100-104 | a passage is in the flattened list iff some intermediate step returned it |
| `Chatbot.ListOf` | chatdoc/chatbot.py:107 | `list(set)` lists every element of the set exactly once |
| `Chatbot.GetCitationsFromSourceDocuments` | chatdoc/chatbot.py:99-108 | the result lists, each once, exactly the proof-less citations of all flattened passages, and no two of them share source and page; a missing "source_documents", "source" or "page" raises the corresponding KeyError |
| `Chatbot.Chatbot.constructor` | chatdoc/chatbot.py:35-71 | the chatbot's tools are those derived from the uploaded file names, and both histories start empty |
| `Chatbot.Chatbot.AddToChatHistory` | chatdoc/chatbot.py:110-115 | appends exactly one entry to each history and changes nothing else |
| `Chatbot.Chatbot.SendPrompt` | chatdoc/chatbot.py:117-129 | the prompt succeeds iff the agent returns, every step has "source_documents" and every passage has "source" and "page"; a failing agent yields its failure, otherwise the error is the KeyError of the missing "source_documents" or of the first malformed passage; any failure leaves both histories unchanged; on success the export history grows by (prompt, output, citations) with the citations of all passages listed once each, the internal one by the agent history, the answer is the agent output and the returned chat history is the export history |
| `SessionStore.AddNewRecordTable` | server_modules/models.py:21-33 | after `add_new_record(s)` s has a row starting now with no end time; a new row's answer is NULL, an existing row's answer is reset to {}; every other row is unchanged |
| `SessionStore.FinalAnswerTable` | server_modules/models.py:35-44 | finalizing an unknown session raises the not-found error; a known one keeps its start time and gets the answer and end time now; other rows are unchanged |
| `SessionStore.RestartErasesFinalAnswer` | server_modules/models.py:26-38 | restarting a finalized session gives the same table as restarting it without the finalization |
| `SessionStore.StartFinalizeRestart` | server_modules/models.py:21-44 | start, finalize, start again leaves the row with the last start time, no end time and answer {} |
| `SessionStore.FinalizeIdempotent` | server_modules/models.py:35-44 | finalizing twice with the same answer and time is finalizing once |
| `SessionStore.FinalAnswerStore.AddNewRecord` | server_modules/models.py:21-33 | the table after the select-then-insert-or-reset is `AddNewRecordTable` of the old one |
| `SessionStore.FinalAnswerStore.UpdateRecordWithFinalAnswer` | server_modules/models.py:35-44 | an unknown session yields the not-found error and no write; otherwise the table becomes `FinalAnswerTable` of the old one |
| `EmbeddingFactory.Contains` | chatdoc/embed/embedding_factory.py:50 | Python's substring test `pattern in s` holds only when the pattern is no longer than the string |
| `EmbeddingFactory.ContainsIffOccurs` | chatdoc/embed/embedding_factory.py:50 | `pattern in s` holds iff the pattern occurs at some index of the string |
| `EmbeddingFactory.IsLocal` | chatdoc/embed/embedding_factory.py:50 | a vendor is local iff "local" occurs somewhere in its name |
| `EmbeddingFactory.OccursImpliesContains` | chatdoc/embed/embedding_factory.py:50 | `"local" in name` holds whenever "local" occurs at some index of the name |
| `EmbeddingFactory.ContainsWitness` | chatdoc/embed/embedding_factory.py:50 | `"local" in name` holds only where "local" occurs at some index |
| `EmbeddingFactory.GetApiKey` | chatdoc/embed/embedding_factory.py:49-59 | a vendor containing "local" gets "" without any lookup; otherwise an explicit key is used, else the key succeeds iff the vendor has a key variable that is set, and equals its value; the two failures are distinct errors |
| `EmbeddingFactory.NewFactory` | chatdoc/embed/embedding_factory.py:24-47 | vendor and model names come from the arguments, else from EMBEDDING_MODEL_VENDOR_NAME / EMBEDDING_MODEL_NAME; no vendor name is an error; construction fails exactly when the API key cannot be found |
| `EmbeddingFactory.CreateSettingsDict` | chatdoc/embed/embedding_factory.py:61-84 | with defaults off, an absent or empty overwrite is an error and any other is returned unchanged; with defaults, the two OpenAI entries for "openai" and an empty dict for any other vendor |
| `EmbeddingFactory.CreateModelNameDict` | chatdoc/embed/embedding_factory.py:86-102 | exactly one entry holding the model name, under "model" for openai and "model_name" otherwise |
| `EmbeddingFactory.Create` | chatdoc/embed/embedding_factory.py:104-123 | an unknown vendor is rejected; a known vendor succeeds iff its API key is found, with the vendor's class, the model-name dict, the default settings and that key, and otherwise fails with the key lookup's own error |
| `EmbeddingFactory.KeyedVendorsAreRemote` | chatdoc/embed/embedding_factory.py:38-51 | "openai" and "huggingface" are not local vendors; "huggingface_local" is |
| `EmbeddingFactory.CreateFailsExactlyForUnknownVendors` | chatdoc/embed/embedding_factory.py:33-37 | a factory that was built can create its embedding iff its vendor is openai, huggingface or huggingface_local |
| `EmbeddingFactory.LocalVendorNeedsNoKey` | chatdoc/embed/embedding_factory.py:49-51 | the huggingface_local vendor is built and created with the empty key, no settings and its model name under "model_name", whatever the environment |
| `EmbeddingFactory.OpenAIWithoutKeyFails` | chatdoc/embed/embedding_factory.py:52-58 | without OPENAI_API_KEY an openai factory cannot be built |

## Left out

- The retrieval chain, the routing agent, the conversation memories, the chat model and the vector database are LangChain objects. The agent is an abstract function of the prompt and the internal history. Tools are names and descriptions; every tool runs the same chain, so no per-document retrieval is modelled.
- The agent's own memory update is not modelled. The same prompt and internal history always give the same outcome.
- The rest of `Chatbot.__init__` is not modelled: building the embedding, the vector database, the memories and the agent. The embedding factory is modelled separately in `EmbeddingFactory`.
- `Utils.remove_date_from_filename` and `Utils.get_env_variable` live in chatdoc/utils.py, which is not part of this model. They are a function parameter and an environment map.
- `Chatbot.Chatbot.SendPrompt` returns a copy of the export history and of the citations. In the code the response's "chat_history" is `self.chat_history_export` itself (chatdoc/chatbot.py:127), and its "citations" is the very list stored in the new turn. Later prompts therefore change an earlier response in place; the model does not capture this aliasing.
- `print_citations` writes to standard output and is not modelled.
- The embedding class's constructor call and its `http_client` argument are foreign library calls. `Create` returns the class and its keyword arguments instead.
- SQLAlchemy engines, connections, `create_all`, commits, the `FINAL_ANSWER_CONNECTION_STRING` variable and `func.now()` are not modelled. The table is a map and `now` is a parameter. As a result, two behaviours of the code are not captured. `update_record_with_final_answer` never creates the table (server_modules/models.py:35-44), so on a database where `add_new_record` never ran its select fails with a database error, while the model returns the not-found error. The select followed by an insert (server_modules/models.py:28-30) is not atomic, so two concurrent first starts of one session both insert and the second violates the primary key, while the model applies each call as one step.
- Python's set iteration order is unspecified. `Chatbot.ListOf` picks an arbitrary order, and `Citation.Citations.ToDict` takes the order as an argument.
- Passages are typed: the source is a string and the page an integer. A page that is not a number raises TypeError when 1 is added to it (chatdoc/citation.py:109), and a source that `Path` cannot take raises TypeError at chatdoc/citation.py:108; neither error is modelled. A float page is accepted and rendered as a float ("on page 1.0" for a page of 0.0), and a path-like source is accepted by `Path`; the model's integer page and string source cannot represent these.
- A tool result that is not a dict is not modelled; only a missing "source_documents" key is. Missing "output" or "agent_history" keys in the agent's result are not modelled either.
- `PathNames.Stem` follows the pathlib rule that a suffix is a final '.' that is neither the first nor the last character of the name.
- `PathNames.Name` drops empty and "." components, but not pathlib's special handling of a leading "//".
- The model-name and settings dicts are maps, because their key order does not matter for keyword arguments.
- The Streamlit front end, the HTTP endpoints, serf/methods.py and the two schema-only modules are outside this model.
