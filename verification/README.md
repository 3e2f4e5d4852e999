# Retrieval-augmented answering: retrieval, assembly and the speech proxy's checks

This project models the logic of a small question-answering service that grounds a generative
model in a static knowledge base. For each question, the service does the following:

- it picks between **ranked retrieval** and a **fallback**;
- it selects up to three knowledge-base records;
- it extracts their contents and joins them with newlines into one **combined context**;
- it fills in a fixed **prompt template** with that context and the question.

The model also covers the request checks and error mapping of the **speech-synthesis proxy**
endpoint.

Everything in the core is side-effect free. The knowledge base, the loaded embedding model and
the similarity scores are read-only values, passed in as parameters, so the model is made of
datatypes, functions and lemmas.

- `Selection` holds the ranked top-3 selection and the fallback's first-3 selection.
  The numeric library's argsort promises no order among equal scores. So the ranked path takes the
  argsort as a parameter that only has to be *some* ascending argsort of the scores
  (`IsAscendingArgsort`), and every property is proved for all such orders. `Argsort` shows one
  always exists, and `RankedSelectionDeterministic` shows the choice does not matter when no two
  scores are equal.
- `KnowledgeBase` holds the record type and the extraction of the selected records' contents.
- `Assembly` holds the newline join and a newline split. Joining the pieces of any split gives the text back. Splitting a join gives the items back only for a non-empty list of items that contain no newline.
- `Prompt` holds the template, reproduced character for character (including the indentation that
  the triple-quoted template carries), and a parser that reads a prompt back.
- `Rag` holds the path choice and the whole retrieval step up to the prompt that is sent to the
  generator.
- `Speak` holds the proxy's validation, the outbound request's fields and how the synthesis
  service's outcome becomes the response.

The model follows the code as written, including these points:

- Ties in the ranking are not broken by store order. The argsort is not stable, and its result is
  reversed.
- A failure of the embedding call is not caught, so it does not lead to the fallback.
- There is no check that the query vector's dimension matches the stored vectors.
- k is the constant 3.
- The marker-string check on the query is a no-op, and the model reproduces it as one.

## Model

| member | source | states |
|---|---|---|
| `Selection.Reverse` | app.py:74 | the reversal has the same length, and its k-th entry is the k-th from the end of the input |
| `Selection.RankedSelection` | app.py:74 | the ranked selection has min(3, n) entries, and its k-th entry is the k-th from the end of the ascending argsort |
| `Selection.RankedSelectionIsTopK` | app.py:74 | for every ascending argsort, the selection is a top-3 selection: min(3, n) distinct in-range indices, scores non-increasing along it, and no unselected score above a selected one |
| `Selection.RankedSelectionDescending` | app.py:74 | the selected indices are in range and distinct, and their scores do not increase along the selection |
| `Selection.RankedSelectionDominates` | app.py:74 | every index left out scores at most every selected index (top-k dominance) |
| `Selection.FirstSelectedIsBest` | app.py:74 | in a non-empty store, the first selected record has a maximal score among all records |
| `Selection.RankedSelectionDeterministic` | app.py:74 | when no two scores are equal, any two ascending argsorts give the same ranked selection |
| `Selection.ArgsortUnique` | app.py:74 | when no two scores are equal, there is exactly one ascending argsort |
| `Selection.Argsort` | app.py:74 | every score sequence has an ascending argsort: a permutation of the indices with non-decreasing scores |
| `Selection.Range` | app.py:79 | the range has m entries, and entry k is k |
| `Selection.FallbackSelection` | app.py:79 | the fallback selects min(3, n) indices with entry k equal to k (the store's first records in store order), so they are distinct and in range, and an empty store gives an empty selection |
| `KnowledgeBase.Contexts` | app.py:82 | one context per selected index, in selection order, each being that record's content |
| `KnowledgeBase.FallbackContextsArePrefix` | app.py:79-82 | the fallback contexts are the contents of the store's first min(3, n) records in store order, and empty for an empty store |
| `Assembly.Join` | app.py:83 | no items join to "", one item joins to itself, and the length is the items' lengths plus one separator between each pair |
| `Assembly.Split` | app.py:83 | splitting on newlines gives newline-free pieces whose join is the original text |
| `Assembly.SplitJoin` | app.py:83 | the join preserves order: for newline-free items, the lines of the joined text are the items in order |
| `Assembly.JoinAppend` | app.py:83 | joining xs + ys gives xs's join, one newline, then ys's join |
| `Prompt.ActualQuery` | app.py:86-90 | the question placed in the prompt is the query unchanged, whatever markers it contains |
| `Prompt.BuildPrompt` | app.py:94-101 | the prompt opens with the instruction, has the refusal sentence at a fixed offset inside the header, then the context, then the question |
| `Prompt.ParseBuild` | app.py:94-101 | a built prompt reads back as exactly its context and question |
| `Prompt.BuildParse` | app.py:94-101 | whatever reads back as a context and a question is exactly the prompt built from them |
| `Rag.LoadModel` | app.py:50-62 | at startup a model is present exactly when the library imported and loading succeeded |
| `Rag.ChoosePath` | app.py:68 | the ranked path is taken exactly when the library imported and a model is present |
| `Rag.StartupPath` | app.py:50-68 | starting from startup state, retrieval is ranked exactly when import and model load both succeeded |
| `Rag.SelectIndices` | app.py:68-79 | the ranked path gives a top-3 selection by score, the fallback gives indices 0 .. min(3, n)-1, and both give min(3, n) distinct in-range indices |
| `Rag.GetRagPrompt` | app.py:65-101 | the selection is correct for its path; the contexts are the selected contents in order, or the store prefix on the fallback; the combined context is their join, whose lines are the contexts; the prompt reads back as that context and the unchanged query |
| `Rag.TwoRecordExample` | app.py:74-83 | for any two records where the first scores strictly higher, every ascending argsort gives the selection [0, 1], and the combined context is the first content, a newline, then the second |
| `Rag.TwoRecordOrder` | app.py:74 | for two scores where the first is strictly higher, the only ascending argsort is [1, 0] |
| `Speak.SettingsFromEnvironment` | app.py:28-29 | the key is taken as read, and the region defaults to "eastus" only when its variable is unset |
| `Speak.RequestedVoice` | app.py:127 | a missing voice member gives the default voice, a null one gives none, and a given one passes through |
| `Speak.PrepareSpeak` | app.py:128-137 | the request is rejected with 400 "Missing SSML, API key, or region." exactly when the SSML is missing, null or empty, the key is unset or empty, or the region is empty; otherwise one call goes to the region's endpoint with the key, the SSML content type, MP3 output and the SSML as body |
| `Speak.Decimal` | app.py:139 | the status code's decimal text is non-empty digits with no leading zero |
| `Speak.DecimalRoundTrip` | app.py:139 | the decimal text of a status reads back as that status |
| `Speak.UpstreamResponse` | app.py:136-142 | a 200 reply streams the audio as audio/mpeg; any other status is a 400 whose message is the error lead, digits that read back as the status, one space, then the service's text; an exception is a 500 with its message |
| `Speak.HandleSpeak` | app.py:124-142 | a rejected request gets the 400 missing-input error whatever the service would have answered; an accepted one is answered from the service's outcome |

## Left out

- Query embedding and cosine similarity (app.py:47, 70, 73) are floating-point computations in foreign libraries. The scores enter as a given `seq<real>`, one per record, together with the argsort the library returns for them.
- The tie order of the argsort is left open on purpose. Every property is proved for every ascending argsort. `Argsort` fixes one tie order only to show that such an order exists.
- Rag.GetRagPrompt: requires a non-empty store on the ranked path. On an empty store the code hands an empty array to the similarity library, and what that does is not specified by the code.
- Exceptions from the embedding call are not caught by the code, and the model adds no fallback for them. Vector dimensions and the knowledge-base schema are never checked, so neither is modelled.
- The call to the generative model (app.py:93, 103) is external. `GetRagPrompt` stops at the prompt that is sent to it.
- HTTP routing, JSON decoding and the `/ask` and `/` handlers (app.py:108-118) are left out. JSON values other than strings or null in the `ssml` and `voice` members are not modelled.
- Environment loading and the Hugging Face login (app.py:17-41), reading the knowledge-base file (app.py:45-46) and all printing (app.py:44, 52-62, 78) are left out.
- The speech service's HTTP exchange and audio streaming (app.py:130-142) are left out. The outcome of the call is a parameter: a reply with status, text and content, or a raised exception. The body's UTF-8 encoding is not modelled, and the body is the SSML string.
- Speak.RequestedVoice: the voice is computed as the code computes it, but the code never uses it in the outbound request, so nothing downstream depends on it.
