/**
 * The "Reflect with AI" handler of the journal page: it analyses a new entry,
 * writes at most one record to the entry store and picks similar past
 * entries. Rendering is left out except where it can raise and so stop the
 * handler before anything is written.
 */
module App {
  import opened Wrappers
  import opened Text
  import opened Json
  import opened AiEngine
  import opened EmotionAnalysis
  import opened Utils

  /** One row of the entry store. */
  datatype Record = Record(
    timestamp: string,
    entry: string,
    reflection: Json,
    summary: Json,
    followups: Json,
    tone: Json,
    safety: Json,
    sentiment: real,
    emotion: Emotion)

  /** The fixed record written instead of a generated reflection when a crisis word is found. */
  function CrisisRecord(now: string, entry: string, analysis: (real, Emotion)): Record
  {
    Record(now, entry, Str("Crisis detected."), Str("Safety notice issued."), Arr([]),
           Str("alert"), Str("crisis"), analysis.0, analysis.1)
  }

  /** All keys the success record reads from the reflection are present. */
  predicate HasRecordKeys(res: Dict)
  {
    "reflection" in res && "summary" in res && "followups" in res && "tone" in res && "safety_flag" in res
  }

  /** The record written for a structured reflection; its safety field is the model's `safety_flag`. */
  function SuccessRecord(now: string, entry: string, res: Dict, analysis: (real, Emotion)): Record
    requires HasRecordKeys(res)
  {
    Record(now, entry, res["reflection"], res["summary"], res["followups"], res["tone"],
           res["safety_flag"], analysis.0, analysis.1)
  }

  /**
   * `for item in followups` followed by `item['question']` and
   * `item['follow_up']` completes: a list of objects holding both keys, or
   * an empty string or object (which iterate over nothing).
   */
  predicate FollowupsRenderable(v: Json)
  {
    match v
    case Arr(items) =>
      forall k :: 0 <= k < |items| ==>
        items[k].Obj? && "question" in items[k].fields && "follow_up" in items[k].fields
    case Str(s) => s == []
    case Obj(fields) => fields == map[]
    case _ => false
  }

  /**
   * Showing the reflection raises no KeyError or TypeError: an error message
   * or a raw reply is shown as it is; anything else must carry the keys the
   * display reads.
   */
  predicate Renders(res: Dict)
  {
    || "error" in res
    || ("raw_response" in res && "reflection" !in res)
    || ("reflection" in res && "summary" in res && "followups" in res
        && FollowupsRenderable(res["followups"]) && "tone" in res)
  }

  /** Building the success record raises no KeyError: either no record is built or all its keys are there. */
  predicate RecordBuildable(res: Dict)
  {
    "reflection" !in res || HasRecordKeys(res)
  }

  /** What one press of "Reflect with AI" ended with. */
  datatype Outcome =
    | EmptyEntry                                  // a blank entry: only a warning
    | CrisisNotice                                // the safety notice and the crisis record
    | Reflected(res: Dict, similar: seq<Record>)  // generation ran, then retrieval
    | Raised(res: Dict)                           // a KeyError or TypeError ended the handler

  /** The entry store: an append-only sequence of records. */
  class EntryStore {
    var entries: seq<Record>

    /**
     * `init_db` when no database exists yet, on the first run. Every later
     * rerun calls it again on the persistent store, which keeps its records,
     * so the handler below takes a store in any state.
     */
    constructor ()
      ensures entries == []
    {
      entries := [];
    }

    /** `insert_entry`: appends one record. */
    method InsertEntry(rec: Record)
      modifies this
      ensures entries == old(entries) + [rec]
    {
      entries := entries + [rec];
    }

    /** `load_entries`: all records, in the order the store holds them. */
    method LoadEntries() returns (rows: seq<Record>)
      ensures rows == entries
    {
      rows := entries;
    }
  }

  /**
   * The "Reflect with AI" handler. The reflection prompt built from the
   * entry (`reflectionPrompt`), the `ollama run` process (`run`), the JSON
   * parser (`parse`), the TextBlob polarity, the configured crisis words,
   * the clock (`now`) and the similarity scores of the new entry against
   * each stored entry, in store order, are parameters.
   */
  method ReflectWithAi(store: EntryStore, entry: string, polarity: real, crisisWords: seq<string>,
                       reflectionPrompt: string -> string, run: string -> Option<string>,
                       parse: string -> Option<Dict>,
                       scores: seq<real>, now: string)
    returns (outcome: Outcome)
    requires |scores| == |store.entries|
    modifies store
    ensures Strip(entry) == [] ==> outcome == EmptyEntry && store.entries == old(store.entries)
    ensures Strip(entry) != [] && CrisisDetect(entry, crisisWords) ==>
      && outcome == CrisisNotice
      && store.entries == old(store.entries) + [CrisisRecord(now, entry, AnalyzeEmotion(polarity))]
    ensures Strip(entry) != [] && !CrisisDetect(entry, crisisWords) ==>
      var res := GenerateReflection(reflectionPrompt(entry), run, parse);
      if Renders(res) && RecordBuildable(res) then
        && outcome == Reflected(res, GetSimilarEntries(old(store.entries), scores))
        && store.entries == old(store.entries) +
             (if "reflection" in res then [SuccessRecord(now, entry, res, AnalyzeEmotion(polarity))] else [])
      else
        outcome == Raised(res) && store.entries == old(store.entries)
    ensures |old(store.entries)| <= |store.entries| <= |old(store.entries)| + 1
    ensures store.entries[..|old(store.entries)|] == old(store.entries)
    ensures |store.entries| > |old(store.entries)| ==>
      var rec := store.entries[|store.entries| - 1];
      rec.entry == entry && rec.sentiment == polarity && rec.emotion == AnalyzeEmotion(polarity).1
  {
    if Strip(entry) == [] {
      return EmptyEntry;
    }
    var analysis := AnalyzeEmotion(polarity);
    var isCrisis := CrisisDetect(entry, crisisWords);
    var history := store.LoadEntries();
    if isCrisis {
      store.InsertEntry(CrisisRecord(now, entry, analysis));
      return CrisisNotice;
    }
    var res := GenerateReflection(reflectionPrompt(entry), run, parse);
    if !Renders(res) {
      return Raised(res);
    }
    if "reflection" in res {
      if !HasRecordKeys(res) {
        return Raised(res);
      }
      store.InsertEntry(SuccessRecord(now, entry, res, analysis));
    }
    var similar := GetSimilarEntries(history, scores);
    outcome := Reflected(res, similar);
  }
}
