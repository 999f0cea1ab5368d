/** The decision logic of main.py's endpoints: reading the session cookie,
    the per-user `speak_text`, `get_anal` and `process_text`, the control
    messages of the recognition websocket, and the shutdown half of
    `lifespan`. JWT decoding, the model engines and the request bodies are
    parameters. */
module MainApp {
  import opened Wrappers
  import opened Text
  import opened Playback
  import opened Recognition
  import opened Assistant
  import opened Resources
  import opened Exercises
  import opened Users
  import opened Replies

  /** `get_token_from_cookie`: the token, or the 401 detail it raises. */
  datatype TokenResult = Token(param: string) | Unauthorized(detail: string)

  const NotAuthenticated: string := "Not authenticated"
  const InvalidScheme: string := "Invalid authentication scheme"

  function TokenFromCookie(cookie: Option<string>): TokenResult
  {
    if cookie.None? || cookie.value == [] then Unauthorized(NotAuthenticated)
    else
      var parts := Partition(cookie.value, ' ');
      if LowerAscii(parts.0) != "bearer" then Unauthorized(InvalidScheme)
      else Token(parts.2)
  }

  /** A missing or empty cookie is "Not authenticated"; otherwise the cookie
      is cut at its first space, the part before it must read "bearer" in any
      letter case, and the token is everything after that space, possibly
      empty (empty too when there is no space at all). */
  lemma TokenFromCookieShape(cookie: Option<string>)
    ensures (cookie.None? || cookie.value == []) ==> TokenFromCookie(cookie) == Unauthorized(NotAuthenticated)
    ensures cookie.Some? && cookie.value != [] ==>
      var r := TokenFromCookie(cookie);
      var scheme := Partition(cookie.value, ' ').0;
      && (r.Unauthorized? <==> LowerAscii(scheme) != "bearer")
      && (r.Unauthorized? ==> r.detail == InvalidScheme)
      && (r.Token? && ' ' in cookie.value ==> cookie.value == scheme + " " + r.param)
      && (r.Token? && ' ' !in cookie.value ==> r.param == [] && LowerAscii(cookie.value) == "bearer")
      && ' ' !in scheme
  {
  }

  /** The cookie `/login` sets, `"Bearer " + token`, gives back the token. */
  lemma LoginCookieRoundTrip(token: string)
    ensures TokenFromCookie(Some("Bearer " + token)) == Token(token)
  {
    var c := "Bearer " + token;
    var parts := Partition(c, ' ');
    assert c == "Bearer" + [' '] + token;
    PartitionAt("Bearer", ' ', token);
    assert LowerAscii("Bearer") == "bearer";
  }

  /** Partitioning at the first separator of a string whose head has none. */
  lemma {:induction false} PartitionAt(head: string, sep: char, tail: string)
    requires sep !in head
    ensures Partition(head + [sep] + tail, sep) == (head, true, tail)
  {
    var s := head + [sep] + tail;
    if head == [] {
      assert s == [sep] + tail;
    } else {
      assert s[0] == head[0] != sep;
      assert s[1..] == head[1..] + [sep] + tail;
      PartitionAt(head[1..], sep, tail);
      assert [head[0]] + head[1..] == head;
    }
  }

  /** What JWT decoding of a token yields: `None` for a JWTError, else the
      payload's "sub", which may be missing. */
  type Decoder = string -> Option<Option<string>>

  /** The user id the cookie names, if the token is well formed and carries one. */
  function SubjectOf(cookie: Option<string>, decode: Decoder): Option<string>
  {
    var t := TokenFromCookie(cookie);
    if t.Unauthorized? then None
    else if decode(t.param).None? then None
    else decode(t.param).value
  }

  const AuthErrorMessage: string := "Authentication error. Please log in again."
  const InitError: string := "Initialization error: "

  /** `/process` either answers or fails with an exception no handler catches (HTTP 500). */
  datatype Outcome = Response(text: string) | ServerError

  /** A client message on the recognition websocket. */
  datatype JsonValue = JStr(s: string) | JOther
  datatype Json = Object(action: Option<JsonValue>) | NonObject | Malformed
  datatype Message = Text(json: Json) | Disconnect

  /** What ends the control loop: a stop request, a disconnect, or a message
      that is not JSON or not an object, which raises inside the loop. */
  datatype LoopExit = StopRequested | Disconnected | ReceiveFailed | Waiting

  function ExitOn(m: Message): Option<LoopExit>
  {
    match m
    case Disconnect => Some(Disconnected)
    case Text(Object(action)) => if action == Some(JStr("stop")) then Some(StopRequested) else None
    case Text(_) => Some(ReceiveFailed)
  }

  /** The first message that ends the loop, with its position. */
  function FirstExit(msgs: seq<Message>): (r: (LoopExit, nat))
    ensures r.1 <= |msgs|
    ensures r.0 == Waiting <==> r.1 == |msgs| && forall k :: 0 <= k < |msgs| ==> ExitOn(msgs[k]).None?
    ensures r.0 != Waiting ==> r.1 < |msgs| && ExitOn(msgs[r.1]) == Some(r.0)
                               && forall k :: 0 <= k < r.1 ==> ExitOn(msgs[k]).None?
    decreases |msgs|
  {
    if msgs == [] then (Waiting, 0)
    else if ExitOn(msgs[0]).Some? then (ExitOn(msgs[0]).value, 0)
    else
      var rest := FirstExit(msgs[1..]);
      (rest.0, rest.1 + 1)
  }

  /** The `while True` loop of `websocket_endpoint` over the messages
      received so far: it reads until a message ends it; a stop request or a
      disconnect stops the recognizer, a failed message ends the loop without
      stopping it, and any other object is ignored. */
  method ControlLoop(recognizer: SpeechRecognizer, msgs: seq<Message>) returns (exit: LoopExit, consumed: nat)
    modifies recognizer
    ensures (exit, if exit == Waiting then |msgs| else consumed - 1) == FirstExit(msgs)
    ensures exit == StopRequested || exit == Disconnected ==> !recognizer.isRunning
    ensures exit == ReceiveFailed || exit == Waiting ==> recognizer.isRunning == old(recognizer.isRunning)
    ensures recognizer.stream == old(recognizer.stream) && recognizer.audioResets == old(recognizer.audioResets)
  {
    consumed := 0;
    while consumed < |msgs|
      invariant consumed <= |msgs|
      invariant FirstExit(msgs[consumed..]) == (FirstExit(msgs).0, FirstExit(msgs).1 - consumed)
      invariant forall k :: 0 <= k < consumed ==> ExitOn(msgs[k]).None?
      invariant unchanged(recognizer)
    {
      var m := msgs[consumed];
      assert msgs[consumed..][0] == m && msgs[consumed..][1..] == msgs[consumed + 1..];
      consumed := consumed + 1;
      match m {
        case Disconnect =>
          recognizer.Stop();
          return Disconnected, consumed;
        case Text(Object(action)) =>
          if action == Some(JStr("stop")) {
            recognizer.Stop();
            return StopRequested, consumed;
          }
        case Text(_) =>
          return ReceiveFailed, consumed;
      }
    }
    return Waiting, consumed;
  }

  /** The process state of main.py: the module-level registries and the
      globals that `lifespan` and the endpoints assign. */
  class Server {
    const userResources: UserResources
    const userManager: UserManager
    /** The SQLite file data/data.db. */
    const database: EntryTable
    /** Whether the global `data_manager` has been constructed. */
    var dataManager: bool
    var ttsPlayer: TextToSpeechPlayer?
    var speechRecognizer: SpeechRecognizer?
    var englishAssistant: EnglishAssistant?

    ghost predicate Valid()
      reads this, database
    {
      database.Valid()
    }

    /** Module import: a fresh registry, the user manager over users.json,
        and no globals yet. */
    constructor (users: UserManager, db: EntryTable)
      requires db.Valid()
      ensures Valid() && userManager == users && database == db
      ensures userResources.resources == map[] && fresh(userResources)
      ensures !dataManager && ttsPlayer == null && speechRecognizer == null && englishAssistant == null
    {
      userResources := new UserResources();
      userManager := users;
      database := db;
      dataManager := false;
      ttsPlayer := null;
      speechRecognizer := null;
      englishAssistant := null;
    }

    /** The start-up half of `lifespan`: the three global engines are
        constructed and the data files are loaded into the database; a load
        that raises aborts the start-up, leaving `data_manager` unset. */
    method Startup(questionFile: Option<seq<string>>, translationFile: Option<seq<string>>)
      returns (started: bool)
      requires Valid()
      modifies this, database
      ensures Valid()
      ensures fresh(ttsPlayer) && fresh(speechRecognizer) && fresh(englishAssistant)
      ensures ttsPlayer.isRunning && ttsPlayer.queue == [] && !speechRecognizer.isRunning
      ensures started <==> dataManager
      ensures started <==> FilesAllowed(questionFile, translationFile)
      ensures started ==> Loaded(old(database.rows), database.rows, questionFile, translationFile)
    {
      ttsPlayer := new TextToSpeechPlayer();
      speechRecognizer := new SpeechRecognizer();
      englishAssistant := new EnglishAssistant();
      dataManager := OpenDataManager(database, questionFile, translationFile);
      started := dataManager;
    }

    /** `get_current_user_from_cookie`: the user the cookie's token names; any
        failure on the way is the same 401 ("Invalid authentication credentials"). */
    function CurrentUserFromCookie(cookie: Option<string>, decode: Decoder): (user: Option<User>)
      reads userManager
      ensures user.Some? <==> SubjectOf(cookie, decode).Some? && SubjectOf(cookie, decode).value in userManager.users
      ensures user.Some? ==> user.value == ToUser(SubjectOf(cookie, decode).value,
                                                  userManager.users[SubjectOf(cookie, decode).value])
    {
      var t := TokenFromCookie(cookie);
      if t.Unauthorized? then None
      else
        var payload := decode(t.param);
        if payload.None? || payload.value.None? then None
        else userManager.GetUserById(payload.value.value)
    }

    /** Whether the cookie names a stored user. */
    ghost predicate Authenticated(cookie: Option<string>, decode: Decoder)
      reads userManager
    {
      SubjectOf(cookie, decode).Some? && SubjectOf(cookie, decode).value in userManager.users
    }

    /** The part of `/speak_text` after the text check: a player is
        constructed only into an empty slot (construction may fail with
        `loadError`), and the text is then queued. */
    static method SpeakWith(b: Bundle, text: string, playerLoads: bool, loadError: string) returns (reply: Status)
      modifies b, b.ttsPlayer
      ensures b.englishAssistant == old(b.englishAssistant) && b.speechRecognizer == old(b.speechRecognizer)
      ensures old(b.ttsPlayer) != null ==>
        && b.ttsPlayer == old(b.ttsPlayer) && b.ttsPlayer.queue == old(b.ttsPlayer.queue) + [Speak(text)]
        && b.ttsPlayer.isRunning == old(b.ttsPlayer.isRunning) && b.ttsPlayer.consumer == old(b.ttsPlayer.consumer)
        && b.ttsPlayer.attempted == old(b.ttsPlayer.attempted) && b.ttsPlayer.played == old(b.ttsPlayer.played)
        && b.ttsPlayer.failures == old(b.ttsPlayer.failures)
        && reply == Status("success", Sent)
      ensures old(b.ttsPlayer) == null && playerLoads ==>
        && fresh(b.ttsPlayer) && b.ttsPlayer.queue == [Speak(text)]
        && b.ttsPlayer.isRunning && b.ttsPlayer.consumer == AtCheck
        && b.ttsPlayer.attempted == [] && b.ttsPlayer.played == [] && b.ttsPlayer.failures == 0
        && reply == Status("success", Sent)
      ensures old(b.ttsPlayer) == null && !playerLoads ==>
        b.ttsPlayer == null && reply == Status("error", SpeakFailure + loadError)
    {
      if b.ttsPlayer == null {
        if !playerLoads {
          return Status("error", SpeakFailure + loadError);
        }
        b.ttsPlayer := new TextToSpeechPlayer();
      }
      b.ttsPlayer.Say(text);
      reply := Status("success", Sent);
    }

    /** `/speak_text`: after authentication the user's bundle is fetched or
        created, even when there is no text; without text nothing else
        happens; otherwise the text goes to the user's player, created on
        first use. The ghost `bundle` names the user's bundle. */
    method SpeakText(cookie: Option<string>, decode: Decoder, text: Option<string>,
                     playerLoads: bool, loadError: string) returns (reply: Status, ghost bundle: Bundle?)
      requires userResources.Valid()
      modifies userResources, userResources.resources.Values, userResources.Players()
      ensures userResources.Valid()
      ensures !Authenticated(cookie, decode) ==>
        && reply == Status("error", AuthErrorMessage) && bundle == null
        && unchanged(userResources) && AllKept(userResources)
      ensures Authenticated(cookie, decode) ==>
        var id := SubjectOf(cookie, decode).value;
        && bundle != null && userResources.resources == old(userResources.resources)[id := bundle]
        && (id in old(userResources.resources) ==> bundle == old(userResources.resources[id]))
        && (id !in old(userResources.resources) ==> fresh(bundle))
        && OthersKept(userResources, id)
        && bundle.englishAssistant
           == (if id in old(userResources.resources) then old(userResources.resources[id].englishAssistant) else null)
        && bundle.speechRecognizer
           == (if id in old(userResources.resources) then old(userResources.resources[id].speechRecognizer) else null)
      ensures Authenticated(cookie, decode) && NoTextGiven(text) ==>
        var id := SubjectOf(cookie, decode).value;
        && reply == Status("error", NoText) && unchanged(old(userResources.resources.Values))
        && unchanged(old(userResources.Players()))
        && bundle.ttsPlayer
           == (if id in old(userResources.resources) then old(userResources.resources[id].ttsPlayer) else null)
      ensures Authenticated(cookie, decode) && !NoTextGiven(text) ==>
        var id := SubjectOf(cookie, decode).value;
        var had := id in old(userResources.resources) && old(userResources.resources[id].ttsPlayer) != null;
        && (had ==> var p := old(userResources.resources[id].ttsPlayer);
                    && bundle.ttsPlayer == p && p.queue == old(p.queue) + [Speak(text.value)]
                    && p.isRunning == old(p.isRunning) && p.consumer == old(p.consumer)
                    && p.attempted == old(p.attempted) && p.played == old(p.played) && p.failures == old(p.failures)
                    && reply == Status("success", Sent))
        && (!had && playerLoads ==> && fresh(bundle.ttsPlayer) && bundle.ttsPlayer.queue == [Speak(text.value)]
                                    && bundle.ttsPlayer.isRunning && bundle.ttsPlayer.consumer == AtCheck
                                    && bundle.ttsPlayer.attempted == [] && bundle.ttsPlayer.played == []
                                    && bundle.ttsPlayer.failures == 0 && reply == Status("success", Sent))
        && (!had && !playerLoads ==> bundle.ttsPlayer == null && reply == Status("error", SpeakFailure + loadError))
    {
      bundle := null;
      var user := CurrentUserFromCookie(cookie, decode);
      if user.None? {
        return Status("error", AuthErrorMessage), bundle;
      }
      var b := userResources.GetOrCreate(user.value.id);
      bundle := b;
      if NoTextGiven(text) {
        reply := Status("error", NoText);
      } else {
        reply := SpeakWith(b, text.value, playerLoads, loadError);
      }
      KeepOthers(userResources, user.value.id, b);
    }

    /** The lazy `EnglishAssistant(...)` of `get_anal` and `process_text`:
        only an empty slot is filled. `loads` says whether loading the model
        succeeds; when it raises, the slot stays empty and `a` is null. */
    static method EnsureAssistant(b: Bundle, loads: bool) returns (a: EnglishAssistant?)
      modifies b
      ensures old(b.englishAssistant) != null ==> a == old(b.englishAssistant)
      ensures old(b.englishAssistant) == null && loads ==> a != null && fresh(a) && a.question == ""
      ensures old(b.englishAssistant) == null && !loads ==> a == null
      ensures b.englishAssistant == a
      ensures b.ttsPlayer == old(b.ttsPlayer) && b.speechRecognizer == old(b.speechRecognizer)
    {
      if b.englishAssistant == null && loads {
        b.englishAssistant := new EnglishAssistant();
      }
      a := b.englishAssistant;
    }

    /** The part of `/get_anal` after authentication, on the user's bundle;
        `None` when the assistant has to be built and its load raises. */
    static method AskAssistant(b: Bundle, text: string, nativeLang: string, explanations: Option<seq<string>>,
                               model: Prompt -> string, assistantLoads: bool) returns (reply: Option<string>)
      modifies b
      ensures reply.None? <==> old(b.englishAssistant) == null && !assistantLoads
      ensures reply.None? ==> b.englishAssistant == null
      ensures old(b.englishAssistant) != null ==> b.englishAssistant == old(b.englishAssistant)
      ensures old(b.englishAssistant) == null && assistantLoads ==>
        fresh(b.englishAssistant) && b.englishAssistant.question == ""
      ensures b.ttsPlayer == old(b.ttsPlayer) && b.speechRecognizer == old(b.speechRecognizer)
      ensures reply.Some? ==>
        && b.englishAssistant != null
        && reply.value == Strip(model(Prompt(SystemPart(nativeLang, explanations), b.englishAssistant.question, text)))
    {
      var a := EnsureAssistant(b, assistantLoads);
      if a == null {
        return None;
      }
      var r := a.ProcessRequest(text, nativeLang, explanations, model);
      reply := Some(r);
    }

    /** `/get_anal`: the user's assistant, created if the slot is empty,
        answers with the prompt built from the form and its current question.
        A model load that raises is not an `HTTPException`, so it escapes the
        handler (HTTP 500) and leaves the slot empty. */
    method GetAnal(cookie: Option<string>, decode: Decoder, text: string, nativeLang: string,
                   explanations: Option<seq<string>>, model: Prompt -> string, assistantLoads: bool)
      returns (outcome: Outcome, ghost bundle: Bundle?)
      requires userResources.Valid()
      modifies userResources, userResources.resources.Values
      ensures userResources.Valid()
      ensures !Authenticated(cookie, decode) ==>
        && outcome == Response(AuthErrorMessage) && bundle == null
        && unchanged(userResources) && AllKept(userResources)
      ensures Authenticated(cookie, decode) ==>
        var id := SubjectOf(cookie, decode).value;
        && bundle != null && userResources.resources == old(userResources.resources)[id := bundle]
        && (id in old(userResources.resources) ==> bundle == old(userResources.resources[id]))
        && (id !in old(userResources.resources) ==> fresh(bundle))
        && OthersKept(userResources, id)
        && bundle.ttsPlayer == (if id in old(userResources.resources) then old(userResources.resources[id].ttsPlayer) else null)
        && (outcome.ServerError? <==> !old(userResources.HasAssistant(id)) && !assistantLoads)
        && (outcome.ServerError? ==> bundle.englishAssistant == null)
        && (old(userResources.HasAssistant(id))
            ==> bundle.englishAssistant == old(userResources.resources[id].englishAssistant))
        && (outcome.Response? ==>
              && bundle.englishAssistant != null
              && outcome.text
                 == Strip(model(Prompt(SystemPart(nativeLang, explanations), bundle.englishAssistant.question, text))))
    {
      bundle := null;
      var user := CurrentUserFromCookie(cookie, decode);
      if user.None? {
        return Response(AuthErrorMessage), bundle;
      }
      var b := userResources.GetOrCreate(user.value.id);
      bundle := b;
      ghost var resources := userResources.resources;
      var reply := AskAssistant(b, text, nativeLang, explanations, model, assistantLoads);
      assert userResources.resources == resources;
      KeepOthers(userResources, user.value.id, b);
      outcome := if reply.Some? then Response(reply.value) else ServerError;
    }

    /** The settings `process_text` stores, replacing whatever was saved. */
    static function ProcessSettings(nativeLang: string, difficulty: int, interactionType: string): (s: Settings)
      ensures s.Keys == {"nativeLanguage", "difficulty", "interactionType"}
      ensures s["nativeLanguage"] == SettingValue.Str(nativeLang) && s["difficulty"] == SettingValue.Int(difficulty)
      ensures s["interactionType"] == SettingValue.Str(interactionType)
    {
      map["nativeLanguage" := SettingValue.Str(nativeLang),
          "difficulty" := SettingValue.Int(difficulty),
          "interactionType" := SettingValue.Str(interactionType)]
    }

    /** The lazy `DataManager(...)` of `process_text`: an existing one is
        kept with the table as it is; otherwise the files are loaded, and a
        construction that raises leaves the global unset. */
    method EnsureDataManager(questionFile: Option<seq<string>>, translationFile: Option<seq<string>>)
      returns (ok: bool)
      requires Valid()
      modifies this`dataManager, database
      ensures Valid()
      ensures ok <==> dataManager
      ensures old(dataManager) ==> ok && unchanged(database)
      ensures !old(dataManager) ==> (ok <==> FilesAllowed(questionFile, translationFile))
      ensures !old(dataManager) && ok ==> Loaded(old(database.rows), database.rows, questionFile, translationFile)
      ensures !ok ==> PartlyLoaded(old(database.rows), database.rows, questionFile)
    {
      if !dataManager {
        dataManager := OpenDataManager(database, questionFile, translationFile);
      }
      ok := dataManager;
    }

    /** The part of `/process` after the data are loaded: the first unused
        row of the type and level is marked used (before anything else can
        fail), its text without trailing '?' goes to the model, and the
        exercise text built from the answer becomes the assistant's question.
        With no such row nothing changes; if the assistant has to be built
        and its load raises, the row stays used and the slot empty. The
        ghost `picked` is the row handed out. */
    method NextExercise(b: Bundle, difficulty: int, nativeLang: string, interactionType: string,
                        translate: (string, string) -> string, assistantLoads: bool)
      returns (result: Option<string>, ghost picked: int)
      requires Valid()
      modifies database, b, b.englishAssistant
      ensures Valid()
      ensures b.ttsPlayer == old(b.ttsPlayer) && b.speechRecognizer == old(b.speechRecognizer)
      ensures result.None? <==>
        || NoneAvailable(old(database.rows), interactionType, difficulty)
        || (old(b.englishAssistant) == null && !assistantLoads)
        || nativeLang !in {"Russian", "Ukrainian", "French"}
      ensures NoneAvailable(old(database.rows), interactionType, difficulty) ==>
        database.rows == old(database.rows) && b.englishAssistant == old(b.englishAssistant)
      ensures !NoneAvailable(old(database.rows), interactionType, difficulty) ==>
        HandedOut(old(database.rows), database.rows, picked, interactionType, difficulty)
      ensures old(b.englishAssistant) != null ==> b.englishAssistant == old(b.englishAssistant)
      ensures !assistantLoads ==> b.englishAssistant == old(b.englishAssistant)
      ensures b.englishAssistant == old(b.englishAssistant) || fresh(b.englishAssistant)
      ensures result.None? && old(b.englishAssistant) != null ==>
        b.englishAssistant.question == old(b.englishAssistant.question)
      ensures result.Some? ==>
        && b.englishAssistant != null && b.englishAssistant.question == result.value
        && ExerciseText(interactionType, nativeLang,
                        translate(RStripChar(old(database.rows)[picked].text, '?'), nativeLang)) == result
    {
      picked := 0;
      var entry := database.GetNextEntry(interactionType, difficulty);
      if entry.None? {
        return None, picked;
      }
      ghost var rows := old(database.rows);
      picked :| HandedOut(rows, database.rows, picked, interactionType, difficulty) && entry.value == rows[picked].text;
      var textToTranslate := RStripChar(entry.value, '?');
      var a := EnsureAssistant(b, assistantLoads);
      if a == null {
        return None, picked;
      }
      var content := translate(textToTranslate, nativeLang);
      result := ExerciseText(interactionType, nativeLang, content);
      ExerciseTextDefined(interactionType, nativeLang, content);
      if result.Some? {
        a.question := result.value;
      }
    }

    /** `/process`: after authentication the user's bundle is fetched or
        created and the data manager constructed if missing; then the next
        exercise is built, returned, and the user's settings are replaced by
        the three form values. A failed data load, a missing text, a model
        load that raises or an unknown language raise (HTTP 500), and then
        the settings are not touched. The ghost `picked` is the index of the
        row handed out. */
    method ProcessText(cookie: Option<string>, decode: Decoder, difficulty: int, nativeLang: string,
                       interactionType: string, questionFile: Option<seq<string>>,
                       translationFile: Option<seq<string>>, translate: (string, string) -> string,
                       assistantLoads: bool)
      returns (outcome: Outcome, ghost bundle: Bundle?, ghost picked: int, ghost drawn: seq<Row>)
      requires Valid() && userResources.Valid()
      modifies this`dataManager, database, userResources, userResources.resources.Values, userManager
      modifies userResources.Assistants()
      ensures Valid() && userResources.Valid()
      ensures !old(Authenticated(cookie, decode)) ==>
        && outcome == Response(AuthErrorMessage) && bundle == null
        && unchanged(userResources) && AllKept(userResources)
        && unchanged(database) && unchanged(userManager) && unchanged(this)
      ensures old(Authenticated(cookie, decode)) ==>
        var id := SubjectOf(cookie, decode).value;
        && bundle != null && userResources.resources == old(userResources.resources)[id := bundle]
        && (id in old(userResources.resources) ==> bundle == old(userResources.resources[id]))
        && (id !in old(userResources.resources) ==> fresh(bundle))
        && OthersKept(userResources, id)
        && bundle.ttsPlayer
           == (if id in old(userResources.resources) then old(userResources.resources[id].ttsPlayer) else null)
        && (old(userResources.HasAssistant(id)) ==>
              bundle.englishAssistant == old(userResources.resources[id].englishAssistant))
        && (outcome.ServerError? ==> unchanged(userManager))
        && (!assistantLoads && !old(userResources.HasAssistant(id)) ==> bundle.englishAssistant == null)
        && (outcome.ServerError? && old(userResources.HasAssistant(id)) ==>
              && bundle.englishAssistant == old(userResources.resources[id].englishAssistant)
              && bundle.englishAssistant.question == old(userResources.resources[id].englishAssistant.question))
        && DrawnFrom(old(dataManager), dataManager, old(database.rows), drawn, questionFile, translationFile)
        && (!dataManager ==> outcome == ServerError)
      ensures old(Authenticated(cookie, decode)) && dataManager ==>
        && (outcome.ServerError? <==>
              || NoneAvailable(drawn, interactionType, difficulty)
              || (!old(userResources.HasAssistant(SubjectOf(cookie, decode).value)) && !assistantLoads)
              || nativeLang !in {"Russian", "Ukrainian", "French"})
        && Drawn(drawn, database.rows, picked, interactionType, difficulty)
      ensures old(Authenticated(cookie, decode)) && outcome.Response? ==>
        var id := SubjectOf(cookie, decode).value;
        && Exercise(bundle, outcome.text, picked, difficulty, nativeLang, interactionType, translate)
        && userManager.users == old(userManager.users)[id :=
             old(userManager.users)[id].(settings := Some(ProcessSettings(nativeLang, difficulty, interactionType)))]
    {
      bundle, picked, drawn := null, 0, database.rows;
      var user := CurrentUserFromCookie(cookie, decode);
      if user.None? {
        return Response(AuthErrorMessage), bundle, picked, drawn;
      }
      var b;
      outcome, b, picked, drawn := ProcessForId(user.value.id, difficulty, nativeLang, interactionType,
                                                questionFile, translationFile, translate, assistantLoads);
      bundle := b;
      KeepOthers(userResources, user.value.id, b);
    }

    /** `/process` for the authenticated user `id`: its bundle is fetched or
        created, and the rest of the request runs on it; of the resources
        only that bundle and its assistant change. */
    method ProcessForId(id: string, difficulty: int, nativeLang: string,
                        interactionType: string, questionFile: Option<seq<string>>,
                        translationFile: Option<seq<string>>, translate: (string, string) -> string,
                        assistantLoads: bool)
      returns (outcome: Outcome, bundle: Bundle, ghost picked: int, ghost drawn: seq<Row>)
      requires Valid() && id in userManager.users
      modifies this`dataManager, database, userResources, userResources.resources.Values, userManager
      modifies userResources.Assistants()
      ensures Valid()
      ensures userResources.resources == old(userResources.resources)[id := bundle]
      ensures id in old(userResources.resources) ==> bundle == old(userResources.resources[id])
      ensures id !in old(userResources.resources) ==> fresh(bundle)
      ensures forall o :: o in old(userResources.resources.Values) && o != bundle ==> unchanged(o)
      ensures unchanged(old(userResources.Players()))
      ensures forall a :: a in old(userResources.Assistants())
                          && !(id in old(userResources.resources)
                               && a == old(userResources.resources[id].englishAssistant))
                          ==> unchanged(a)
      ensures bundle.ttsPlayer == (if id in old(userResources.resources) then old(userResources.resources[id].ttsPlayer) else null)
      ensures old(userResources.HasAssistant(id)) ==>
        bundle.englishAssistant == old(userResources.resources[id].englishAssistant)
      ensures bundle.englishAssistant == null || fresh(bundle.englishAssistant) || old(userResources.HasAssistant(id))
      ensures outcome.ServerError? ==> unchanged(userManager)
      ensures !assistantLoads && !old(userResources.HasAssistant(id)) ==> bundle.englishAssistant == null
      ensures outcome.ServerError? && old(userResources.HasAssistant(id)) ==>
        bundle.englishAssistant.question == old(userResources.resources[id].englishAssistant.question)
      ensures DrawnFrom(old(dataManager), dataManager, old(database.rows), drawn, questionFile, translationFile)
      ensures !dataManager ==> outcome == ServerError
      ensures dataManager ==>
        && (outcome.ServerError? <==>
              || NoneAvailable(drawn, interactionType, difficulty)
              || (!old(userResources.HasAssistant(id)) && !assistantLoads)
              || nativeLang !in {"Russian", "Ukrainian", "French"})
        && Drawn(drawn, database.rows, picked, interactionType, difficulty)
      ensures outcome.Response? ==>
        && Exercise(bundle, outcome.text, picked, difficulty, nativeLang, interactionType, translate)
        && userManager.users == old(userManager.users)[id :=
             old(userManager.users)[id].(settings := Some(ProcessSettings(nativeLang, difficulty, interactionType)))]
    {
      bundle := userResources.GetOrCreate(id);
      outcome, picked, drawn := ProcessForUser(id, bundle, difficulty, nativeLang, interactionType,
                                               questionFile, translationFile, translate, assistantLoads);
    }

    /** What a successful `/process` leaves behind: the user's assistant holds
        the exercise text as its question, and that text is built from the
        used row `picked` of the requested type and level. */
    ghost predicate Exercise(b: Bundle, text: string, picked: int, difficulty: int, nativeLang: string,
                             interactionType: string, translate: (string, string) -> string)
      reads this, database, b, b.englishAssistant
    {
      && b.englishAssistant != null && b.englishAssistant.question == text
      && 0 <= picked < |database.rows|
      && var row := database.rows[picked];
      && row.kind == interactionType && row.level == Some(difficulty) && row.used
      && ExerciseText(interactionType, nativeLang, translate(RStripChar(row.text, '?'), nativeLang)) == Some(text)
    }

    /** `/process` once the user `id` and its bundle are known. */
    method ProcessForUser(id: string, b: Bundle, difficulty: int, nativeLang: string, interactionType: string,
                          questionFile: Option<seq<string>>, translationFile: Option<seq<string>>,
                          translate: (string, string) -> string, assistantLoads: bool)
      returns (outcome: Outcome, ghost picked: int, ghost drawn: seq<Row>)
      requires Valid() && id in userManager.users
      modifies this`dataManager, database, b, b.englishAssistant, userManager
      ensures Valid()
      ensures b.ttsPlayer == old(b.ttsPlayer) && b.speechRecognizer == old(b.speechRecognizer)
      ensures b.englishAssistant == old(b.englishAssistant) || fresh(b.englishAssistant)
      ensures old(b.englishAssistant) != null ==> b.englishAssistant == old(b.englishAssistant)
      ensures DrawnFrom(old(dataManager), dataManager, old(database.rows), drawn, questionFile, translationFile)
      ensures !dataManager ==> outcome == ServerError
      ensures dataManager ==>
        (outcome.ServerError? <==>
           || NoneAvailable(drawn, interactionType, difficulty)
           || (old(b.englishAssistant) == null && !assistantLoads)
           || nativeLang !in {"Russian", "Ukrainian", "French"})
      ensures dataManager ==> Drawn(drawn, database.rows, picked, interactionType, difficulty)
      ensures !assistantLoads ==> b.englishAssistant == old(b.englishAssistant)
      ensures outcome.ServerError? && old(b.englishAssistant) != null ==>
        b.englishAssistant.question == old(b.englishAssistant.question)
      ensures outcome.ServerError? ==> unchanged(userManager)
      ensures outcome.Response? ==>
        && Exercise(b, outcome.text, picked, difficulty, nativeLang, interactionType, translate)
        && userManager.users == old(userManager.users)[id :=
             old(userManager.users)[id].(settings := Some(ProcessSettings(nativeLang, difficulty, interactionType)))]
    {
      picked := 0;
      var loaded := EnsureDataManager(questionFile, translationFile);
      drawn := database.rows;
      if !loaded {
        return ServerError, picked, drawn;
      }
      var result;
      result, picked := NextExercise(b, difficulty, nativeLang, interactionType, translate, assistantLoads);
      if result.None? {
        return ServerError, picked, drawn;
      }
      var _ := userManager.UpdateUserSettings(id, ProcessSettings(nativeLang, difficulty, interactionType));
      outcome := Response(result.value);
    }

    /** The start of `websocket_endpoint`: the global recognizer is
        constructed if missing (a failure is reported and the socket closed),
        and a running recognition is stopped before the new one starts. */
    method Connect(recognizerLoads: bool, loadError: string) returns (error: Option<string>)
      modifies this`speechRecognizer, speechRecognizer
      ensures error.Some? <==> old(speechRecognizer) == null && !recognizerLoads
      ensures error.Some? ==> error.value == InitError + loadError && speechRecognizer == null
      ensures error.None? ==> speechRecognizer != null && !speechRecognizer.isRunning
      ensures error.None? && old(speechRecognizer) != null ==>
        speechRecognizer == old(speechRecognizer) && speechRecognizer.stream == old(speechRecognizer.stream)
      ensures error.None? && old(speechRecognizer) == null ==> fresh(speechRecognizer)
    {
      if speechRecognizer == null {
        if !recognizerLoads {
          return Some(InitError + loadError);
        }
        speechRecognizer := new SpeechRecognizer();
      }
      if speechRecognizer.isRunning {
        speechRecognizer.Stop();
      }
      error := None;
    }

    /** One round of the shutdown loop: `cleanup_resources` for one present
        user; players already stopped stay stopped, and that user's player
        joins them. */
    static method CleanupStep(ur: UserResources, userId: string, ok: bool, ghost stopped: set<TextToSpeechPlayer>)
      returns (ghost stoppedAfter: set<TextToSpeechPlayer>)
      requires userId in ur.resources
      requires forall p :: p in stopped ==> !p.isRunning && p.consumer == Exited
      modifies ur, ur.Players()
      ensures forall p :: p in stoppedAfter ==> !p.isRunning && p.consumer == Exited
      ensures stopped <= stoppedAfter
      ensures old(ur.resources[userId].ttsPlayer) != null ==> old(ur.resources[userId].ttsPlayer) in stoppedAfter
      ensures ur.resources == old(ur.resources) - {userId}
      ensures ur.Players() <= old(ur.Players())
    {
      ghost var held := ur.Players();
      ghost var victim := ur.resources[userId].ttsPlayer;
      ur.Cleanup(userId, ok);
      forall p | p in stopped ensures !p.isRunning && p.consumer == Exited {
        if p in held && p != victim {
          assert unchanged(p);
        }
      }
      stoppedAfter := if victim == null then stopped else stopped + {victim};
    }

    /** The `for user_id in list(user_resources.resources.keys())` loop of
        `lifespan`: every user's resources are cleaned up, so every user's
        player ends stopped, players stopped before stay stopped, and the
        registry ends empty. */
    static method CleanupAll(ur: UserResources, ok: bool, ghost stopped0: set<TextToSpeechPlayer>)
      returns (ghost stopped: set<TextToSpeechPlayer>)
      requires forall p :: p in stopped0 ==> !p.isRunning && p.consumer == Exited
      modifies ur, ur.Players()
      ensures ur.resources == map[]
      ensures stopped0 <= stopped && forall p :: p in stopped ==> !p.isRunning && p.consumer == Exited
      ensures forall id :: id in old(ur.resources) && old(ur.resources[id].ttsPlayer) != null ==>
        old(ur.resources[id].ttsPlayer) in stopped
    {
      ghost var initial := ur.resources;
      ghost var players := map id | id in initial :: initial[id].ttsPlayer;
      stopped := stopped0;
      while ur.resources != map[]
        invariant forall p :: p in stopped ==> !p.isRunning && p.consumer == Exited
        invariant stopped0 <= stopped
        invariant ur.Players() <= old(ur.Players())
        invariant forall id :: id in ur.resources ==> id in initial && ur.resources[id] == initial[id]
        invariant forall id :: id in initial && id !in ur.resources && players[id] != null ==> players[id] in stopped
        decreases |ur.resources.Keys|
      {
        var userId :| userId in ur.resources;
        ghost var before := ur.resources;
        assert ur.resources[userId].ttsPlayer == players[userId];
        stopped := CleanupStep(ur, userId, ok, stopped);
        assert ur.resources.Keys < before.Keys by {
          assert userId in before.Keys && userId !in ur.resources.Keys;
        }
      }
    }

    /** The shutdown half of `lifespan`: the global player is stopped if
        there is one, then every user's resources are cleaned up, which stops
        every user's player and leaves the registry empty. */
    method Shutdown(ok: bool)
      modifies ttsPlayer, userResources, userResources.Players()
      ensures userResources.resources == map[]
      ensures ttsPlayer != null ==> !ttsPlayer.isRunning && ttsPlayer.consumer == Exited
      ensures forall id :: id in old(userResources.resources) && old(userResources.resources[id].ttsPlayer) != null ==>
        !old(userResources.resources[id].ttsPlayer).isRunning && old(userResources.resources[id].ttsPlayer).consumer == Exited
    {
      if ttsPlayer != null {
        ttsPlayer.Stop(ok);
      }
      ghost var stopped := CleanupAll(userResources, ok, if ttsPlayer == null then {} else {ttsPlayer});
    }
  }
}
