/** mainf.py: an earlier single-user version of the server, with one global
    player, recognizer, assistant and data manager and no authentication.
    Its `lifespan` is defined but never given to the application, so the
    globals start as `None` and only the lazily built ones ever get a value. */
module MainF {
  import opened Wrappers
  import opened Text
  import opened Playback
  import opened Recognition
  import opened Assistant
  import opened Exercises
  import opened Replies
  import MainApp

  /** The text of the AttributeError that `tts_player.say(text)` raises
      while `tts_player` is `None`. */
  const NoneSay: string := "'NoneType' object has no attribute 'say'"
  const InitErrorRu: string := "Ошибка инициализации: "

  class SingleUserServer {
    /** The SQLite file data/data.db. */
    const database: EntryTable
    var dataManager: bool
    var ttsPlayer: TextToSpeechPlayer?
    var speechRecognizer: SpeechRecognizer?
    var englishAssistant: EnglishAssistant?

    ghost predicate Valid()
      reads this, database
    {
      database.Valid()
    }

    /** Module import; since the application is built without `lifespan`,
        this is also the state the first request sees. */
    constructor (db: EntryTable)
      requires db.Valid()
      ensures Valid() && database == db
      ensures !dataManager && ttsPlayer == null && speechRecognizer == null && englishAssistant == null
    {
      database := db;
      dataManager := false;
      ttsPlayer := null;
      speechRecognizer := null;
      englishAssistant := null;
    }

    /** `speak_text`: no text is refused first; then the text is queued and
        the player stopped at once, inside one handler that turns any
        exception into the error reply. With no player that exception is the
        AttributeError of `None.say`. */
    method SpeakText(text: Option<string>, ok: bool) returns (reply: Status)
      modifies ttsPlayer
      ensures NoTextGiven(text) ==> reply == Status("error", NoText)
      ensures NoTextGiven(text) && ttsPlayer != null ==> unchanged(ttsPlayer)
      ensures !NoTextGiven(text) && ttsPlayer == null ==> reply == Status("error", SpeakFailure + NoneSay)
      ensures !NoTextGiven(text) && ttsPlayer != null ==>
        && reply == Status("success", Sent)
        && !ttsPlayer.isRunning && ttsPlayer.consumer == Exited
        && ttsPlayer.attempted + Playback.TextsOf(ttsPlayer.queue)
           == old(ttsPlayer.attempted + Playback.TextsOf(ttsPlayer.queue)) + [text.value]
        && (old(ttsPlayer.consumer) != InGet ==> ttsPlayer.attempted == old(ttsPlayer.attempted))
        && (old(ttsPlayer.consumer) == InGet && old(ttsPlayer.queue) == [] ==>
              ttsPlayer.attempted == old(ttsPlayer.attempted) + [text.value])
    {
      if NoTextGiven(text) {
        return Status("error", NoText);
      }
      if ttsPlayer == null {
        return Status("error", SpeakFailure + NoneSay);
      }
      ttsPlayer.Say(text.value);
      ttsPlayer.Stop(ok);
      reply := Status("success", Sent);
    }

    /** `get_anal`: the global assistant, built on first use, answers. Its
        model load may raise (`assistantLoads` false): nothing catches it, so
        the request fails with HTTP 500 and the global stays `None`. */
    method GetAnal(text: string, nativeLang: string, explanations: Option<seq<string>>,
                   model: Prompt -> string, assistantLoads: bool) returns (outcome: MainApp.Outcome)
      modifies this`englishAssistant
      ensures outcome.ServerError? <==> old(englishAssistant) == null && !assistantLoads
      ensures outcome.ServerError? ==> englishAssistant == null
      ensures old(englishAssistant) != null ==> englishAssistant == old(englishAssistant)
      ensures old(englishAssistant) == null && assistantLoads ==>
        englishAssistant != null && fresh(englishAssistant) && englishAssistant.question == ""
      ensures outcome.Response? ==>
        && englishAssistant != null
        && outcome.text == Strip(model(Prompt(SystemPart(nativeLang, explanations), englishAssistant.question, text)))
    {
      if englishAssistant == null {
        if !assistantLoads {
          return MainApp.ServerError;
        }
        englishAssistant := new EnglishAssistant();
      }
      var reply := englishAssistant.ProcessRequest(text, nativeLang, explanations, model);
      outcome := MainApp.Response(reply);
    }

    /** `process_text` up to the exercise text, as in main.py but on the
        globals and without a user: the data manager and the assistant are
        built on first use; a failed data load, a missing text, a model load
        that raises or an unknown language raise (HTTP 500). The ghost
        `drawn` is the table the exercise is drawn from (the table after
        the load when this request builds the data manager), and `picked`
        is the row handed out. */
    method ProcessText(difficulty: int, nativeLang: string, interactionType: string,
                       questionFile: Option<seq<string>>, translationFile: Option<seq<string>>,
                       translate: (string, string) -> string, assistantLoads: bool)
      returns (outcome: MainApp.Outcome, ghost picked: int, ghost drawn: seq<Row>)
      requires Valid()
      modifies this, database, englishAssistant
      ensures Valid()
      ensures ttsPlayer == old(ttsPlayer) && speechRecognizer == old(speechRecognizer)
      ensures DrawnFrom(old(dataManager), dataManager, old(database.rows), drawn, questionFile, translationFile)
      ensures !dataManager ==> outcome == MainApp.ServerError && englishAssistant == old(englishAssistant)
      ensures dataManager ==>
        (outcome.ServerError? <==>
           || NoneAvailable(drawn, interactionType, difficulty)
           || (old(englishAssistant) == null && !assistantLoads)
           || nativeLang !in {"Russian", "Ukrainian", "French"})
      ensures dataManager ==> Drawn(drawn, database.rows, picked, interactionType, difficulty)
      ensures old(englishAssistant) != null ==> englishAssistant == old(englishAssistant)
      ensures englishAssistant == old(englishAssistant) || fresh(englishAssistant)
      ensures !assistantLoads ==> englishAssistant == old(englishAssistant)
      ensures outcome.ServerError? && old(englishAssistant) != null ==>
        englishAssistant.question == old(englishAssistant.question)
      ensures outcome.Response? ==>
        && englishAssistant != null && englishAssistant.question == outcome.text
        && 0 <= picked < |database.rows|
        && var row := database.rows[picked];
        && row.kind == interactionType && row.level == Some(difficulty) && row.used
        && ExerciseText(interactionType, nativeLang, translate(RStripChar(row.text, '?'), nativeLang)) == Some(outcome.text)
    {
      picked := 0;
      if !dataManager {
        dataManager := OpenDataManager(database, questionFile, translationFile);
      }
      drawn := database.rows;
      if !dataManager {
        return MainApp.ServerError, picked, drawn;
      }
      var result;
      result, picked := NextExercise(difficulty, nativeLang, interactionType, translate, assistantLoads);
      outcome := if result.Some? then MainApp.Response(result.value) else MainApp.ServerError;
    }

    /** The rows part of `process_text` once the data manager exists: the row
        is handed out before the assistant is built, so a model load that
        raises leaves it used. */
    method NextExercise(difficulty: int, nativeLang: string, interactionType: string,
                        translate: (string, string) -> string, assistantLoads: bool)
      returns (result: Option<string>, ghost picked: int)
      requires Valid()
      modifies this`englishAssistant, database, englishAssistant
      ensures Valid()
      ensures result.None? <==>
        || NoneAvailable(old(database.rows), interactionType, difficulty)
        || (old(englishAssistant) == null && !assistantLoads)
        || nativeLang !in {"Russian", "Ukrainian", "French"}
      ensures NoneAvailable(old(database.rows), interactionType, difficulty) ==>
        database.rows == old(database.rows) && englishAssistant == old(englishAssistant)
      ensures !NoneAvailable(old(database.rows), interactionType, difficulty) ==>
        HandedOut(old(database.rows), database.rows, picked, interactionType, difficulty)
      ensures old(englishAssistant) != null ==> englishAssistant == old(englishAssistant)
      ensures englishAssistant == old(englishAssistant) || fresh(englishAssistant)
      ensures !assistantLoads ==> englishAssistant == old(englishAssistant)
      ensures result.None? && old(englishAssistant) != null ==>
        englishAssistant.question == old(englishAssistant.question)
      ensures result.Some? ==>
        && englishAssistant != null && englishAssistant.question == result.value
        && ExerciseText(interactionType, nativeLang,
                        translate(RStripChar(old(database.rows)[picked].text, '?'), nativeLang)) == result
    {
      picked := 0;
      var entry := database.GetNextEntry(interactionType, difficulty);
      if entry.None? {
        return None, picked;
      }
      ghost var rows := old(database.rows);
      picked :| HandedOut(rows, database.rows, picked, interactionType, difficulty) && entry.value == rows[picked].text;
      var textToTranslate := RStripChar(entry.value, '?');
      if englishAssistant == null {
        if !assistantLoads {
          return None, picked;
        }
        englishAssistant := new EnglishAssistant();
      }
      var content := translate(textToTranslate, nativeLang);
      result := ExerciseText(interactionType, nativeLang, content);
      ExerciseTextDefined(interactionType, nativeLang, content);
      if result.Some? {
        englishAssistant.question := result.value;
      }
    }

    /** The start of `websocket_endpoint`, as in main.py but with a Russian
        error text. */
    method Connect(recognizerLoads: bool, loadError: string) returns (error: Option<string>)
      modifies this`speechRecognizer, speechRecognizer
      ensures error.Some? <==> old(speechRecognizer) == null && !recognizerLoads
      ensures error.Some? ==> error.value == InitErrorRu + loadError && speechRecognizer == null
      ensures error.None? ==> speechRecognizer != null && !speechRecognizer.isRunning
      ensures error.None? && old(speechRecognizer) != null ==> speechRecognizer == old(speechRecognizer)
      ensures error.None? && old(speechRecognizer) == null ==> fresh(speechRecognizer)
    {
      if speechRecognizer == null {
        if !recognizerLoads {
          return Some(InitErrorRu + loadError);
        }
        speechRecognizer := new SpeechRecognizer();
      }
      if speechRecognizer.isRunning {
        speechRecognizer.Stop();
      }
      error := None;
    }
  }

  /** Since `lifespan` never runs, every request with text fails on `None`,
      however many are made. */
  method RequestsAfterImport(db: EntryTable, texts: seq<Option<string>>) returns (replies: seq<Status>)
    requires db.Valid()
    ensures |replies| == |texts|
    ensures forall i :: 0 <= i < |texts| ==>
      replies[i] == if NoTextGiven(texts[i]) then Status("error", NoText) else Status("error", SpeakFailure + NoneSay)
  {
    var server := new SingleUserServer(db);
    replies := [];
    for i := 0 to |texts|
      invariant server.ttsPlayer == null
      invariant |replies| == i
      invariant forall k :: 0 <= k < i ==>
        replies[k] == if NoTextGiven(texts[k]) then Status("error", NoText) else Status("error", SpeakFailure + NoneSay)
    {
      var r := server.SpeakText(texts[i], true);
      replies := replies + [r];
    }
  }

  /** The first `/process` on a freshly imported server when neither data
      file exists: the data manager is built over the table as it is, and
      the request fails exactly when the table holds no entry of that type
      and level, the model load raises or the language is unknown; on an
      empty table it always fails. */
  method FirstProcessWithoutFiles(db: EntryTable, difficulty: int, nativeLang: string, interactionType: string,
                                  translate: (string, string) -> string, assistantLoads: bool)
    returns (outcome: MainApp.Outcome)
    requires db.Valid()
    modifies db
    ensures outcome.ServerError? <==>
      || (forall e :: e in EntriesOfKind(old(db.rows), interactionType) ==> e.level != Some(difficulty))
      || !assistantLoads
      || nativeLang !in {"Russian", "Ukrainian", "French"}
    ensures old(db.rows) == [] ==> outcome.ServerError?
  {
    var server := new SingleUserServer(db);
    ghost var picked, drawn;
    outcome, picked, drawn := server.ProcessText(difficulty, nativeLang, interactionType, None, None,
                                                 translate, assistantLoads);
    NoneAvailableUnused(drawn, interactionType, difficulty);
  }

  /** Were a player present (as `lifespan` would build it), the first
      request stops it for good: with the consumer waiting in `get()`, the
      first text is synthesised, and every later text is queued behind the
      sentinel and never reaches the synthesiser, whatever the consumer
      does afterwards. */
  method LaterTextsNeverPlayed(db: EntryTable, first: string, later: seq<string>, steps: seq<bool>)
    returns (attempted: seq<string>, replies: seq<Status>)
    requires db.Valid() && first != []
    ensures attempted == [first]
    ensures |replies| == |later|
    ensures forall i :: 0 <= i < |later| && later[i] != [] ==> replies[i] == Status("success", Sent)
  {
    var server := new SingleUserServer(db);
    var p := new TextToSpeechPlayer();
    server.ttsPlayer := p;
    p.ConsumerStep(true);
    var _ := server.SpeakText(Some(first), true);
    replies := [];
    for i := 0 to |later|
      invariant server.ttsPlayer == p && p.consumer == Exited && p.attempted == [first]
      invariant |replies| == i
      invariant forall k :: 0 <= k < i && later[k] != [] ==> replies[k] == Status("success", Sent)
    {
      var r := server.SpeakText(Some(later[i]), true);
      replies := replies + [r];
    }
    for i := 0 to |steps|
      invariant p.consumer == Exited && p.attempted == [first]
    {
      p.ConsumerStep(steps[i]);
    }
    attempted := p.attempted;
  }
}
