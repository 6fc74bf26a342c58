# Empathy Bot — reflection core in Dafny

Empathy Bot is a Streamlit journaling app. A user writes an entry and presses
"Reflect with AI". The app scores the entry's polarity and bins it into a
label. It checks the entry for configured crisis words. On a crisis it writes a
fixed safety record. Otherwise it asks a local Ollama model for a JSON
reflection, pulls the JSON object out of the reply, and stores a record when
the reply carries a reflection. On that non-crisis path, when nothing raised
on the way, it also picks the three most similar past entries, provided at
least three entries were stored before; otherwise it picks none.

This project models that core:

- `text.dfy` (`Text`): the Python `str` operations the core uses: `strip()`, `lower()` and substring `in`.
- `json.dfy` (`Json`): JSON values and string-keyed dictionaries.
- `ai_engine.dfy` (`AiEngine`): `_extract_json`, the prompt built by `call_ollama`, and the three outcomes of `generate_reflection`.
- `emotion_analysis.dfy` (`EmotionAnalysis`): the ±0.4 polarity binning.
- `utils.dfy` (`Utils`): `crisis_detect`, and the argsort-based top-three choice of `get_similar_entries`.
- `app.dfy` (`App`): the entry store as a class holding a `seq<Record>`, and the submit handler as a method over it.

Foreign pieces are parameters:

- the Ollama process output (`run`), and the reflection prompt built from the entry (`reflectionPrompt`);
- `json.loads` (`parse`);
- TextBlob's polarity;
- the TF-IDF cosine scores (`scores`);
- the crisis word list;
- the clock (`now`).

Facts about the program that the model keeps:

- There is a single Ollama backend, with no fallback chain.
- Crisis detection is a boolean, with no severity levels.
- Exactly three similar entries are chosen.
- Ties in score come in numpy's unstable argsort order; the proofs hold for every such order.

The handler writes a record only when the reply has a `reflection` key and
nothing on the way raises. Two steps can raise a KeyError or TypeError:

- Showing the reply (app.py:65-80). A reply with an `error` key, or with
  `raw_response` and no `reflection`, is shown without reading anything else
  and never raises. Any other reply raises when it lacks `reflection`,
  `summary` or `tone`, or when its `followups` is missing or is not a list of
  objects that each hold `question` and `follow_up`. An empty string or an
  empty object also passes, since iterating it yields nothing.
- Building the record (app.py:83-94). This happens only when the reply has
  `reflection`. It raises when `summary`, `followups`, `tone` or `safety_flag`
  is missing.

So a reply with both `error` and `reflection` skips the follow-up display and
is stored as long as the record keys are present. A raise ends the handler
with nothing stored and no similar entries shown. The model has this as the
outcome `Raised`; the predicates `Renders` and `RecordBuildable` state the
two conditions.

## Model

| member | source | states |
|---|---|---|
| Text.Strip | app.py:39 | The result is the input minus its leading and trailing whitespace. All removed characters are whitespace, and the result neither starts nor ends with whitespace. It is empty exactly when every character is whitespace. |
| Text.Lower | utils.py:6 | Lower-casing keeps the length and maps each character through the letter-lowering map. |
| Text.Contains | utils.py:7 | `w in t` holds exactly when `w` occurs in `t` at some index. |
| Utils.CrisisDetect | utils.py:5-7 | True exactly when some configured word is a substring of the lower-cased text. |
| Utils.NoWordsNoCrisis | utils.py:7 | An empty word list never reports a crisis. |
| Utils.CrisisMonotone | utils.py:7 | A word list containing every word of another detects every text the other detects. |
| Utils.CrisisCaseInsensitive | utils.py:6 | Texts equal after lower-casing, character by character, get the same answer. |
| Utils.ArgSort | utils.py:21 | The result is a valid argsort: each index exactly once, in non-decreasing score order. |
| Utils.TopOfAnyArgSort | utils.py:21 | For ANY valid argsort, whatever its tie order, the last three indices reversed form a top three. They are distinct, valid and in non-increasing score order, and none scores below an index left out. |
| Utils.SimilarIndices | utils.py:17-21 | No indices for fewer than three scores; otherwise a top three. |
| Utils.GetSimilarEntries | utils.py:16-23 | No rows for a history under three rows. Otherwise, the rows at some top three of the scores, highest first. |
| EmotionAnalysis.AnalyzeEmotion | emotion_analysis.py:3-11 | The polarity is returned unchanged. The label is Positive iff polarity > 0.4 and Negative iff polarity < -0.4. It is Neutral iff -0.4 ≤ polarity ≤ 0.4, so both boundary values are Neutral. |
| EmotionAnalysis.LabelMonotone | emotion_analysis.py:5-10 | A higher polarity never gets a lower label in the order Negative < Neutral < Positive. |
| AiEngine.ExtractJson | ai_engine.py:5-14 | The result is None exactly when no `}` follows a `{`. Otherwise it is the contiguous span from the first `{` to the last `}` of the text. |
| AiEngine.ExtractFromWrapped | ai_engine.py:11-13 | Round trip: a prefix with no `{`, then an object text `s` from `{` to `}`, then a suffix with no `}`, extracts to exactly `s`. This covers markdown fences. |
| AiEngine.ExtractJsonIdempotent | ai_engine.py:11-13 | Extracting from an extracted span returns the span unchanged. |
| AiEngine.CombinedPrompt | ai_engine.py:21 | The prompt always ends the combined text. With no context, or an empty one, the result is the prompt. Otherwise it is `Context:\n`, the context, `\n\nUser:\n`, then the prompt, at the stated offsets. |
| AiEngine.CallOllama | ai_engine.py:17-36 | None exactly when the process run on the combined prompt exits with an error (the `CalledProcessError` caught at ai_engine.py:34). Otherwise it is exactly `Strip` of the process output. |
| AiEngine.ClassifyReply | ai_engine.py:87-100 | A missing or empty reply gives `{"error": …}`. A reply with no brace span gives `{"raw_response": reply}`. With a span, the result is the parsed object if the span parses, else `{"raw_response": reply}` with the reply verbatim. |
| AiEngine.GenerateReflection | ai_engine.py:38-100 | The model is run once on the prompt without context. A failed run gives `{"error": …}`; otherwise the result is the classification of the stripped output, so any raw reply is the stripped output. |
| AiEngine.BlankOutputIsError | ai_engine.py:86-88 | An output made only of whitespace is stripped to empty by `call_ollama` (ai_engine.py:33) and gives `{"error": …}`, never a raw reply. |
| AiEngine.EmptyReplyIgnoresParser | ai_engine.py:87-88 | For an empty reply the result does not depend on the parser, so no parse is attempted. |
| AiEngine.FencedReplyParsed | ai_engine.py:90-100 | An object text wrapped in prose or a fence comes back as the parsed object, unmodified. |
| AiEngine.FencedReplyUnparsable | ai_engine.py:92-98 | A wrapped span that fails to parse yields the whole reply under `raw_response`. |
| App.EntryStore.constructor | app.py:29 | The store `init_db` creates on the first run is empty. Later reruns call `init_db` again on the persistent store, which keeps its records; the handler accepts a store in any state. |
| App.EntryStore.InsertEntry | app.py:95 | `insert_entry` appends exactly the given record. |
| App.EntryStore.LoadEntries | app.py:44 | `load_entries` returns the stored records and changes nothing. |
| App.ReflectWithAi | app.py:38-112 | A blank entry leaves the store unchanged. A crisis appends exactly the fixed crisis record, with no generation and no retrieval. Otherwise it appends the success record exactly when the reply has `reflection` and nothing raises, and it returns the top three of the store as it was before the insert. Details follow the table. |

What `App.ReflectWithAi` states:

- A blank entry changes nothing.
- On a crisis, it appends exactly the fixed crisis record. That record holds "Crisis detected.", "Safety notice issued.", `[]`, "alert" and "crisis". No generation and no retrieval happen.
- Otherwise, if showing the reply and building the record raise nothing, it appends the success record exactly when the reply has `reflection`. That record's `safety` is `safety_flag`. It returns the similar entries computed against the store as it was before the insert.
- If showing the reply or building the record raises, it stores nothing.
- At most one record is appended, and the old records are kept.
- Any appended record holds the entry verbatim, the polarity, and its label.

## Left out

- The `ollama run` subprocess and its UTF-8 decoding: the process output is the parameter `run`, which gives the output on a normal exit and `None` on a non-zero exit (`CalledProcessError`, caught at ai_engine.py:34).
- A failure to launch the process (such as `FileNotFoundError` when `ollama` is not installed, raised at ai_engine.py:24) is not caught by `call_ollama`. It propagates out of `generate_reflection` and ends the handler at app.py:64 with no insert and no retrieval. `run` cannot express it, so this path is not modelled.
- The reflection prompt text (ai_engine.py:43-82): it is a fixed template around the user's input, and nothing in it is modelled.
- `json.loads`: it is the parameter `parse`. Its success is typed as an object, because the span it is given always starts with `{`.
- TextBlob polarity: it is the parameter `polarity`, a `real`. The Python float is read as the real its decimal `repr` denotes. That reading is strictly monotone and maps the float `0.4` to 0.4, so the comparisons at emotion_analysis.py:5,7 give the same labels as Python. Read as its exact binary value, the float `0.4` would lie above 0.4 and be labelled Positive, which Python does not do.
- The TF-IDF vectoriser and cosine similarity (utils.py:9-14): they are the parameter `scores`. The score list has one score per stored entry, as `compute_similarity` returns. The vectoriser's own errors are not modelled, such as an empty vocabulary.
- Utils.GetSimilarEntries: returns whole records. The selection of the `timestamp`, `entry` and `emotion` columns (utils.py:22) is a display concern and is not modelled.
- Text.Lower: lowers only ASCII letters. Python's `str.lower()` also lowers non-ASCII letters.
- Dictionary key order and JSON number precision: these are not modelled.
- `database.py` and `config.py` are not part of this model. The store is a sequence of records, `CRISIS_WORDS` is a parameter, and `MODEL` is unused by the core.
- The conversation context built at app.py:45 is not modelled: it is computed and never used, because the call that would use it (app.py:63) is commented out.
- Streamlit rendering, the Analytics and About tabs, the OpenAI key setup, diagnostic prints, and the `__main__` demo: these are I/O and have no effect on the store. The exception is where rendering can raise, which is modelled.
- Timestamps: the clock is the parameter `now`.
