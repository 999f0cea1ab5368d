# English learning assistant: a verified model of its core

This project models the server side of an English learning assistant. The
assistant listens to the user through a speech recogniser, speaks replies
with a text-to-speech player and asks a language model for exercises and
corrections. The model is written in Dafny and proved with its verifier. It
covers:

- **Recognition** (`recognition.dfy`): the streaming recogniser of
  services.py. Its frame loop deduplicates `final` and `partial` events. A
  raising iteration ends the loop, with an error event when that report can
  be sent. Once the loop has started the stream is always released.
- **Playback** (`playback.dfy`): the text-to-speech player of services.py,
  whose code app.py repeats. It is a FIFO queue with a `None` sentinel, a
  running flag and one consumer thread. The thread is modelled by its
  program counter, so every interleaving of `say`, `stop` and consumer
  steps can be stated.
- **Assistant** (`assistant.dfy`, `replies.dfy`): the prompt list that
  `process_request` builds, and the exercise text that `/process` builds.
  `replies.dfy` holds the `/speak_text` reply texts that the three servers
  share.
- **Resources** (`resources.dfy`): the per-user registry of bundles. No
  two users share a bundle, a player or an assistant, and a request on
  one user's bundle leaves every other user's resources as they were.
- **Exercises** (`exercises.dfy`): the SQLite `entries` table of exercise
  texts as an in-memory table. It covers the file loader, `get_next_entry`
  and the reset of the used flags.
- **Users** (`users.dfy`): the user store of users.json.
- **Templates** (`templates.dfy`): the index-page patch and the
  write-if-absent creation of the login and register pages.
- **Servers** (`mainapp.dfy`, `ttsdemo.dfy`, `mainf.dfy`): the endpoint
  logic of main.py (with cookie authentication), app.py (the
  text-to-speech demo) and mainf.py (an earlier single-user server).
- **Shared pieces**: `text.dfy` gives the Python `str` operations the code
  relies on (`strip`, `rstrip`, `partition`, `lower`, `in`, `find`,
  `replace`, `isdigit`, `int`). `wrappers.dfy` gives `Option`.

Some form choices follow how the source code is written:

- Code that updates objects in place is modelled as classes whose methods
  declare what they modify. This covers the player, the recogniser, the
  registry, the table, the user store and the servers.
- Code that only computes values is modelled as functions with lemmas. This
  covers the cookie parsing, the template patch and the message filter
  behind the recogniser loop.

Engines, clocks and the network enter the model as parameters:

- the recogniser's per-frame reports;
- the language model as a function from prompt to reply;
- the translation call;
- JWT decoding;
- whether a model file loads, and the text of a failure;
- the outcome of each synthesis.

Exceptions that no handler catches become `ServerError`, which stands for
HTTP 500.

Some details of the modelled Python behaviour:

- `lower()` is modelled as ASCII lower-casing. This is exact for the one
  comparison it serves, against the ASCII word "bearer". The only
  non-ASCII character whose lower case is a single ASCII letter is the
  Kelvin sign U+212A, which gives `k`, not a letter of "bearer". U+0130
  lower-cases to `i` followed by a combining dot, two characters, so the
  string then differs from "bearer" in length.
- `isdigit()` and `int()` are modelled on the ASCII digits only.
- `strip()` removes exactly the characters Python's `str.isspace` accepts.

## Model

| member | source | states |
|---|---|---|
| Text.StripMeaning | services.py:69 | `strip()` keeps a contiguous piece that starts and ends with non-space characters; only whitespace is cut away; the result is empty exactly when the string is all whitespace |
| Text.RStripChar | main.py:380 | `rstrip('?')` is a prefix of the input, its last character is not '?', and every character it removed was '?' |
| Text.Partition | main.py:195 | `partition(" ")` finds the separator exactly when there is one; the head contains no separator; head + separator + tail rebuilds the input; without a separator the input is the head and the tail is empty |
| Text.Find | services_create_templates.py:271 | `find` returns -1 exactly when the pattern is absent, otherwise the index of its first occurrence |
| Text.Split | services_create_templates.py:268 | splits at the anchor occurrences found left to right; always yields at least one piece |
| Text.ReplaceIsSplitJoin | services_create_templates.py:268 | `replace` equals cutting at every non-overlapping occurrence (left to right) and gluing the pieces with the replacement |
| Text.SplitJoinInverse | services_create_templates.py:268 | gluing the pieces back with the pattern gives the original string |
| Text.SplitPiecesFree | services_create_templates.py:268 | no piece contains the pattern, so every occurrence is replaced |
| Text.ReplacePresent | services_create_templates.py:268 | if the pattern occurs, the result contains the replacement |
| Text.LowerIsBearer | main.py:196 | the scheme lower-cases to "bearer" exactly when it has six characters, each the lower- or upper-case letter of "bearer" at that place |
| Recognition.StepFinal | services.py:67-77 | a final is sent exactly when the waveform is accepted with a "text" whose strip is non-empty and which differs from the last final; it sets the last final and clears the last partial |
| Recognition.StepPartial | services.py:78-88 | a partial is sent exactly when not accepted, the strip is non-empty, and the text differs from both the last partial and the last final; it sets only the last partial |
| Recognition.StepQuiet | services.py:67-88 | an iteration that sends nothing leaves both memos unchanged, and an iteration that does not raise never sends an error |
| Recognition.RunDeduped | services.py:60-98 | every event sequence the loop sends is deduplicated, and an error can only be the last event |
| Recognition.DedupedNoRepeat | services.py:67-88 | two consecutive events are never identical |
| Recognition.DedupedPartialAfterFinal | services.py:83 | a partial never repeats the text of the most recent final |
| Recognition.LastFinalSince | services.py:76 | the last final sent is the text of the most recent final event |
| Recognition.RunStopsAtFail | services.py:92-98 | a raising iteration ends the loop and nothing is sent after it; its error event ("Ошибка распознавания: " + message) is sent only when that send succeeds, and otherwise the exception escapes the loop |
| Recognition.HelloExample | services.py:67-88 | partial "hel", partial "hello", final "hello", partial "hello" sends P("hel"), P("hello"), F("hello") only |
| Recognition.SpeechRecognizer.constructor | services.py:23-32 | no stream and not running |
| Recognition.SpeechRecognizer.OpenStream | services.py:34-42 | opens a stream unless an active one exists; an active stream is kept; an open that raises leaves the old stream and reports failure |
| Recognition.SpeechRecognizer.CloseStream | services.py:44-52 | the stream is gone and the audio system is reset, whether or not there was a stream |
| Recognition.SpeechRecognizer.Stop | services.py:103-104 | only clears the running flag; idempotent |
| Recognition.SpeechRecognizer.Iterate | services.py:67-88 | the checks of one iteration that does not raise send and remember exactly what the filter step prescribes |
| Recognition.SpeechRecognizer.RecognizeStream | services.py:54-101 | if opening the stream or building the recogniser raises (before the `try`), nothing is sent, the flag stays cleared, no close runs and a stream just opened stays open; otherwise the events sent are the loop filter over the engine's reports for the iterations run before a stop is seen, the result says whether an exception escaped the loop (an error report whose send failed), and afterwards the stream is closed and the flag cleared |
| Playback.TextsOfAppend | services.py:146-148 | the texts of two queues joined are the texts of each in order |
| Playback.TextsOfSentinel | services.py:152 | the sentinel `stop` enqueues is never a text to synthesise |
| Playback.TextToSpeechPlayer.constructor | services.py:108-127 | empty queue, flag set, consumer started |
| Playback.TextToSpeechPlayer.Say | services.py:146-148 | the text is appended at the tail of the queue; nothing else changes |
| Playback.TextToSpeechPlayer.ConsumerStep | services.py:129-144 | one consumer step: leaves on a cleared flag, waits on an empty queue, exits on the sentinel without synthesis, hands a text to the synthesiser and continues whether it succeeded or raised |
| Playback.TextToSpeechPlayer.Stop | services.py:150-154 | clears the flag, enqueues the sentinel and waits for exit; at most the text already waited for is synthesised, and no text is lost from attempted + queued |
| Playback.Interleaving | services.py:129-154 | under any interleaving of say, stop and consumer steps, the synthesised texts are a prefix of the texts said (FIFO) |
| Playback.InOrder | app.py:37-56 | three texts said to a waiting consumer are synthesised in order |
| Playback.SayThenStop | app.py:54-62 | say then stop on a waiting consumer still synthesises the text |
| Playback.StopSkipsWaiting | services.py:129-154 | with one text playing and one waiting, stop leaves the waiting text unplayed; a second stop raises nothing |
| Assistant.SystemPartShape | services.py:169-186 | the prompt list is the introduction, then, only if explanations is non-empty, the header and each requested line exactly once |
| Assistant.SystemPartOrder | services.py:176-184 | the explanation lines come in the fixed order grammar, pronunciation, alternatives |
| Assistant.EnglishAssistant.constructor | services.py:159-165 | the question starts empty |
| Assistant.EnglishAssistant.ProcessRequest | services.py:167-198 | the reply is the stripped model answer to the system list, the current question and the user text |
| Assistant.PrefixKeys | main.py:364-373 | both prefix tables cover exactly Russian, Ukrainian and French |
| Assistant.ExerciseTextDefined | main.py:388-391 | the exercise text exists exactly when the native language is one of the three (otherwise KeyError) |
| Assistant.TranslationTextShape | main.py:388-389 | for "translation": the language's translation prefix followed by the stripped model content |
| Assistant.QuestionTextShape | main.py:390-391 | otherwise: the question prefix, the stripped content, then "?" |
| Resources.Bundle.constructor | services.py:320-324 | all three slots empty |
| Resources.UserResources.constructor | services.py:315-316 | empty registry, in which each user's resources are trivially their own |
| Resources.UserResources.GetOrCreate | services.py:318-325 | returns the existing bundle untouched, or stores a new empty bundle under the id; no other key changes; distinct users keep distinct bundles, players and assistants |
| Resources.UserResources.Cleanup | services.py:327-332 | stops the user's player if there is one, then removes only that key; other players untouched; an unknown id changes nothing; distinct users keep distinct bundles, players and assistants |
| Resources.KeepOthers | services.py:312-325 | when only one user's bundle and that user's own player and assistant change, and the bundle holds its old objects or new ones, every other user keeps its bundle, player and assistant unchanged and no resource becomes shared |
| Exercises.CleanedAppend | services.py:255 | cleaning works line by line, keeping file order |
| Exercises.CleanedLine | services.py:255 | a line is kept, stripped, exactly when it is not all whitespace |
| Exercises.EntriesAppend | services.py:261-266 | reading a file in two parts carries the level across the cut |
| Exercises.LevelWithoutDigits | services.py:263-264 | lines without a digit line leave the level as it was |
| Exercises.LevelOfLastDigitLine | services.py:263-264 | the level in force is the value of the most recent digit line |
| Exercises.EntryOfTextLine | services.py:265-266 | each non-digit line becomes exactly one entry, at the level in force, in file order |
| Exercises.EntryTexts | services.py:262-266 | the entry texts are the non-digit lines in order |
| Exercises.NoLevelBeforeDigits | services.py:261 | before the first digit line every entry has level NULL |
| Exercises.EntriesOfKindWithout | services.py:259 | deleting a type empties it and leaves the other type unchanged |
| Exercises.EntriesOfKindNew | services.py:266 | the inserted rows read back as the inserted entries, under their own type only |
| Exercises.EntriesOfKindReset | services.py:241 | resetting the used flags changes no type, level or text |
| Exercises.FirstAvailable | services.py:275-279 | no row is found exactly when no row of that type and level is unused; otherwise the first such row |
| Exercises.FirstHasSmallestId | services.py:276 | with ascending ids, the row found has the smallest id of all available rows |
| Exercises.NextIsLater | services.py:281-283 | after marking, no row up to the one handed out is available again |
| Exercises.NoneAvailableUnused | services.py:271-279 | on a table with no used row, nothing of a type and level can be handed out exactly when no entry of that type has that level |
| Exercises.RefusedAt | services.py:229-266 | a text line read while the level in force is outside 1..10 makes the whole load violate the CHECK constraint; a NULL level passes it |
| Exercises.LoadedKinds | services.py:259-266 | after a load, the loaded type reads back as the file's entries and the other type is unchanged |
| Exercises.LoadedAllKinds | services.py:257-266 | after a load, the loaded type reads back as the file's entries and every other type is unchanged |
| Exercises.ResetAllKinds | services.py:237-243 | resetting the used flags changes no type's entries |
| Exercises.EntryTable.constructor | services.py:221-235 | a new table is empty and ids start at 1 |
| Exercises.EntryTable.LoadFile | services.py:252-269 | refused (rolled back) exactly when an entry's level is outside 1..10; otherwise the type's rows are replaced by the file's entries with fresh increasing ids |
| Exercises.EntryTable.InsertEntries | services.py:261-266 | the insert loop succeeds exactly when every entry's level passes the CHECK, and then adds the file's entries in order with ids counted from the next id |
| Exercises.EntryTable.GetNextEntry | services.py:271-289 | None exactly when no row is available (nothing changes); otherwise the text of the available row with the smallest id, and only that row is marked used |
| Exercises.EntryTable.ResetUsed | services.py:237-243 | every row becomes unused; nothing else changes |
| Exercises.LoadIfPresent | services.py:247-250 | a missing file changes nothing; a present one is loaded as its type, which then reads back as the file's entries while every other type is unchanged, or is refused and rolled back, leaving the table as it was |
| Exercises.UpdateFromFiles | services.py:245-250 | loads the question file before the translation file; succeeds exactly when every present file is allowed, and then each loaded type reads back as its file's entries and every other type as before; a refused question file leaves the table as it was, and a refused translation file leaves the question file committed and every other type as before |
| Exercises.OpenDataManager | services.py:213-219 | succeeds exactly when every present file is allowed; then no row is used, and every type reads back as its file's entries when its file was loaded and as before otherwise; on failure the reset is not reached and the table is as the partial load left it |
| Users.UserManager.constructor | services.py:336-346 | a new users file is empty |
| Users.UserManager.GetUserByEmail | services.py:355-365 | None exactly when no record has the email; otherwise the first such user in dictionary order, settings defaulting to {} |
| Users.UserManager.GetUserById | services.py:367-377 | the user with that id, or None when absent |
| Users.UserManager.CreateUser | services.py:379-402 | refused exactly when the email is taken; otherwise a record with empty settings under the new id |
| Users.UserManager.UpdateUserSettings | services.py:404-409 | true exactly when the user exists; the settings are then replaced as a whole |
| Users.CreateKeepsEmailsUnique | services.py:381-382 | refusing taken emails keeps emails unique |
| Users.UpdateKeepsEmailsUnique | services.py:404-406 | replacing settings keeps emails unique |
| Users.RegisterThenFind | services.py:355-402 | after registering, looking the email up finds a user with that email (the new one when creation succeeded) |
| Templates.FragmentsMarked | services_create_templates.py:238-265 | both inserted fragments contain "user-info" |
| Templates.PatchShape | services_create_templates.py:234-273 | a marked page is unchanged; otherwise every header anchor is replaced, and the style block is inserted right before the first `</head>` only, or not at all |
| Templates.PatchWithoutAnchors | services_create_templates.py:268-273 | a page with neither anchor is unchanged |
| Templates.PatchMarks | services_create_templates.py:238-273 | a page with either anchor carries the marker once patched |
| Templates.PatchIdempotent | services_create_templates.py:229-276 | patching twice equals patching once |
| Templates.UpdateIndexTemplateShape | services_create_templates.py:229-276 | without an index page nothing happens; only the index page changes, to its patch; a second run changes nothing |
| Templates.CreateTemplatesShape | services_create_templates.py:10-227 | existing pages are never overwritten, missing ones get their text, other files unchanged, a second run changes nothing |
| MainApp.TokenFromCookieShape | main.py:187-202 | missing or empty cookie: "Not authenticated"; scheme before the first space must be "bearer" in any case, else "Invalid authentication scheme"; the token is everything after the first space, possibly empty |
| MainApp.LoginCookieRoundTrip | main.py:195-202 | the cookie value set at login gives back the token |
| MainApp.FirstExit | main.py:301-313 | the first message that ends the loop, and that all earlier ones do not |
| MainApp.ControlLoop | main.py:301-313 | a stop request or a disconnect stops the recogniser and exits; other JSON objects are ignored; a malformed or non-object message exits without stopping |
| MainApp.Server.constructor | main.py:88-90 | fresh registry, no globals |
| MainApp.Server.Startup | main.py:93-99 | the three engines are built and the data files loaded; start-up succeeds exactly when the files are allowed, and then the table is as the data manager loads it |
| MainApp.Server.CurrentUserFromCookie | main.py:205-229 | the user the cookie's token names, None on any failure |
| MainApp.Server.SpeakWith | main.py:417-423 | a player is built only into an empty slot; an existing player gets the text at the tail of its queue, with the rest of its state unchanged; a new player is running with just this text queued and nothing played; success is returned; a failed construction returns the error text and leaves the slot empty |
| MainApp.Server.SpeakText | main.py:405-427 | unauthenticated: the auth error, and no user's bundle, player or assistant changes; otherwise the bundle is fetched, or created new and empty for a new id, before the text check, its assistant and recogniser slots stay as they were, every other user's bundle, player and assistant stay unchanged, and no resource becomes shared; no text: error, no player constructed and nothing queued; otherwise the text is queued on the user's player (the rest of its state unchanged) or on a new running player, or the construction error is returned |
| MainApp.Server.EnsureAssistant | main.py:382-383 | the assistant slot is filled only when empty; a model load that raises leaves it empty |
| MainApp.Server.AskAssistant | main.py:338-346 | the user's assistant, reused or new, answers the prompt with its current question; no answer exactly when the slot was empty and the model load raises |
| MainApp.Server.GetAnal | main.py:327-350 | unauthenticated: the auth error, and no user's bundle, player or assistant changes; otherwise the user's bundle is fetched or created new, its assistant (built only if missing) answers with its current question, every other user's bundle, player and assistant stay unchanged, and no resource becomes shared; a server error, with the slot left empty, exactly when the assistant had to be built and its load raises |
| MainApp.Server.EnsureDataManager | main.py:375-377 | an existing data manager is kept with the table as it is; otherwise it is built exactly when the files are allowed, and the table is then as the load makes it, or as the partial load left it when construction raises |
| MainApp.Server.NextExercise | main.py:379-393 | the first unused row is marked used before anything else can fail; its text without trailing '?' is translated; the exercise text becomes the assistant's question; None exactly when no row remains, the assistant has to be built and its load raises, or the language is unknown; with no row nothing changes; on None an existing assistant keeps its question |
| MainApp.Server.ProcessText | main.py:353-403 | unauthenticated: the auth error, nothing changed; otherwise the bundle is fetched or created new, its player slot stays as it was, an existing assistant is reused, every other user's bundle, player and assistant stay unchanged, no resource becomes shared, and the exercise is drawn from the table as it stood or, on the first request, as the data manager loads it; the exercise text is returned, stored as the question, and the settings replaced by exactly the three form values; a failed load, no row in that table, a model load that raises or an unknown language is a server error that leaves the settings and an existing assistant's question alone |
| MainApp.Server.ProcessForId | main.py:362-401 | for a known user: the bundle is fetched or created new; of the resources only that bundle and its assistant change; the rest is as in ProcessForUser, stated over the registry |
| MainApp.Server.ProcessForUser | main.py:375-401 | for a known user: the exercise is drawn from the table as it stood or, when this request builds the data manager, as the load makes it; a failed load, an exhausted type and level, a model load that raises, or an unknown language is a server error that leaves the users and an existing assistant's question alone; otherwise the exercise is built from the row handed out and the settings become exactly the three form values |
| MainApp.Server.Connect | main.py:284-295 | the global recogniser is built only when missing (a failure reports "Initialization error: "), and a running one is stopped |
| MainApp.Server.CleanupStep | main.py:104-105 | one cleanup round keeps stopped players stopped and stops that user's player |
| MainApp.Server.CleanupAll | main.py:104-105 | after cleaning up every key the registry is empty, every user's player is stopped, and players stopped before stay stopped |
| MainApp.Server.Shutdown | main.py:100-105 | the global player is stopped if present, every user's player is stopped, and the registry ends empty |
| TtsDemo.Spoken | app.py:191-194 | the texts that pass the emptiness check, in order |
| TtsDemo.DemoServer.constructor | app.py:65 | no player |
| TtsDemo.DemoServer.Startup | app.py:67-73 | the player is built; a failure is caught and leaves the global as it was |
| TtsDemo.DemoServer.SpeakText | app.py:188-200 | no text: error, nothing queued; no player: "not initialised"; otherwise the text is queued at the tail and success returned at once |
| TtsDemo.DemoServer.Shutdown | app.py:75-78 | the player is stopped only if it exists |
| TtsDemo.RequestsWithoutPlayer | app.py:188-200 | after a failed start-up every request is refused |
| TtsDemo.RequestsWithPlayer | app.py:188-200 | after a successful start-up the queue holds exactly the non-empty texts, in request order |
| MainF.SingleUserServer.constructor | mainf.py:41-48 | the application is built without its lifespan, so all globals stay None |
| MainF.SingleUserServer.SpeakText | mainf.py:153-167 | no text: error; no player: the AttributeError text in the error reply; otherwise the text is queued, the player stopped, and success returned |
| MainF.SingleUserServer.GetAnal | mainf.py:105-119 | the global assistant is built only when None, then answers; a server error, with the global left None, exactly when it had to be built and its load raises |
| MainF.SingleUserServer.ProcessText | mainf.py:121-151 | data manager and assistant built only when None; the exercise is drawn from the table as it stood or, on the first request, as the data manager loads it; same exercise text as main.py, stored as the question; a failed load, no row in that table, a model load that raises or an unknown language is a server error, and an existing assistant keeps its question |
| MainF.SingleUserServer.NextExercise | mainf.py:140-150 | the first unused row is marked used before the assistant is built; the exercise text is built from it and stored as the question; None exactly when no row remains, the model load raises, or the language is unknown; on None an existing assistant keeps its question |
| MainF.SingleUserServer.Connect | mainf.py:62-73 | as main.py, with the error text "Ошибка инициализации: " |
| MainF.RequestsAfterImport | mainf.py:41-48 | since the lifespan never runs, every request with text fails |
| MainF.FirstProcessWithoutFiles | mainf.py:136-151 | on a freshly imported server with neither data file, the first `/process` fails exactly when the table holds no entry of that type and level, the model load raises or the language is unknown; on an empty table it always fails |
| MainF.LaterTextsNeverPlayed | mainf.py:163-164 | with a player present, the first request stops it for good; later texts are queued but never synthesised |

## Left out

- Audio devices, Vosk decoding, torch synthesis and the Llama calls: each is an opaque parameter. Floats, tensors and sample rates are not modelled.
- Concurrency: the asyncio tasks, `asyncio.sleep` and the playback thread are modelled by sequential steps. The moment a concurrent `stop()` lands is the parameter `stopAfter`, and the consumer thread is a program counter.
- Recognition.SpeechRecognizer.RecognizeStream: a single active stream is not claimed, because the code does not enforce it; two connections share one recogniser and its flag.
- JWT encoding, decoding and expiry, bcrypt hashing and uuid generation: decoding is a parameter, and hashes and ids are inputs.
- SQLite: the table is an in-memory sequence of rows. A load that breaks `CHECK(level BETWEEN 1 AND 10)` is an error result that rolls the load back.
- Files: reading and writing users.json, the data files, the templates and index.html. Files are inputs or a path-to-contents map.
- The HTML and CSS of the login and register pages are parameters. Only the patch fragments are spelled out.
- FastAPI routing, cookies, redirects and response objects, and the `/`, `/login`, `/register`, `/logout`, `/save_settings`, `/get_settings` and `/get_text` endpoints, which are not part of this model.
- `get_native_responce` is the parameter `translate`; its prompt text is not modelled.
- The request body: "text" values that are not strings (numbers, lists) are not modelled; a missing key and JSON null read as no text.
- MainApp.Server.Startup: if an engine fails to load at start-up, the application aborts. Engines are assumed to load there; only a data load failure is modelled.
- MainApp.Server.CleanupAll: the order in which keys are cleaned up is left open. The source takes a copy of the keys, and the result is the same for every order.
- MainApp.ControlLoop: the wait for the recognition task after the loop, and the outer exception handlers of the websocket endpoint, are not modelled. The loop ends as `Waiting` when the messages so far do not end it.
- MainApp.Server.ProcessText: after an unknown language the assistant built just before the KeyError stays in the slot; the contract does not say which object the slot then holds.
- Recognition.SpeechRecognizer.RecognizeStream: after `open_stream` succeeds, `start_stream` may raise with the stream object already stored; the model does not tell that inactive stream apart from an open one, and counts it as opened.
