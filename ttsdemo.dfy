/** app.py: a standalone demo with one global player. Its `TextToSpeechPlayer`
    is the same code as services.py's and is modelled by `Playback`. */
module TtsDemo {
  import opened Wrappers
  import opened Playback
  import opened Replies

  const NotInitialised: string := "TTS система не инициализирована"

  /** The texts that get past the emptiness check, in order. */
  function Spoken(texts: seq<Option<string>>): (r: seq<string>)
    ensures |r| <= |texts|
    ensures forall t :: t in r ==> t != [] && Some(t) in texts
  {
    if texts == [] then []
    else Spoken(texts[..|texts| - 1])
         + (if NoTextGiven(texts[|texts| - 1]) then [] else [texts[|texts| - 1].value])
  }

  class DemoServer {
    var ttsPlayer: TextToSpeechPlayer?

    /** Module import: `tts_player = None`. */
    constructor ()
      ensures ttsPlayer == null
    {
      ttsPlayer := null;
    }

    /** `startup_event`: the player is constructed; a construction that
        raises (the model file is missing) is caught and leaves the global as
        it was. */
    method Startup(modelFound: bool)
      modifies this
      ensures modelFound ==> && fresh(ttsPlayer) && ttsPlayer.queue == [] && ttsPlayer.isRunning
                             && ttsPlayer.consumer == AtCheck && ttsPlayer.attempted == []
      ensures !modelFound ==> ttsPlayer == old(ttsPlayer)
    {
      if modelFound {
        ttsPlayer := new TextToSpeechPlayer();
      }
    }

    /** `speak_text`: no text is refused first; without a player the
        request is refused; otherwise the text is queued and success returned
        at once. */
    method SpeakText(text: Option<string>) returns (reply: Status)
      modifies ttsPlayer
      ensures NoTextGiven(text) ==> reply == Status("error", NoText)
      ensures NoTextGiven(text) && ttsPlayer != null ==> unchanged(ttsPlayer)
      ensures !NoTextGiven(text) && ttsPlayer == null ==> reply == Status("error", NotInitialised)
      ensures !NoTextGiven(text) && ttsPlayer != null ==>
        && reply == Status("success", Sent)
        && ttsPlayer.queue == old(ttsPlayer.queue) + [Speak(text.value)]
        && ttsPlayer.attempted + TextsOf(ttsPlayer.queue) == old(ttsPlayer.attempted + TextsOf(ttsPlayer.queue)) + [text.value]
        && ttsPlayer.isRunning == old(ttsPlayer.isRunning) && ttsPlayer.consumer == old(ttsPlayer.consumer)
        && ttsPlayer.attempted == old(ttsPlayer.attempted)
    {
      if NoTextGiven(text) {
        return Status("error", NoText);
      }
      if ttsPlayer != null {
        ttsPlayer.Say(text.value);
        return Status("success", Sent);
      }
      return Status("error", NotInitialised);
    }

    /** `shutdown_event`: stops the player only if there is one. */
    method Shutdown(ok: bool)
      modifies ttsPlayer
      ensures ttsPlayer != null ==> !ttsPlayer.isRunning && ttsPlayer.consumer == Exited
      ensures ttsPlayer != null ==>
        ttsPlayer.attempted + TextsOf(ttsPlayer.queue) == old(ttsPlayer.attempted + TextsOf(ttsPlayer.queue))
    {
      if ttsPlayer != null {
        ttsPlayer.Stop(ok);
      }
    }
  }

  /** A run of requests after a failed start-up: every request with text is
      refused as "not initialised", the others as "no text". */
  method RequestsWithoutPlayer(texts: seq<Option<string>>) returns (replies: seq<Status>)
    ensures |replies| == |texts|
    ensures forall i :: 0 <= i < |texts| ==>
      replies[i] == if NoTextGiven(texts[i]) then Status("error", NoText) else Status("error", NotInitialised)
  {
    var server := new DemoServer();
    server.Startup(false);
    replies := [];
    for i := 0 to |texts|
      invariant server.ttsPlayer == null
      invariant |replies| == i
      invariant forall k :: 0 <= k < i ==>
        replies[k] == if NoTextGiven(texts[k]) then Status("error", NoText) else Status("error", NotInitialised)
    {
      var r := server.SpeakText(texts[i]);
      replies := replies + [r];
    }
  }

  /** A run of requests after a successful start-up, with no playback in
      between: the texts with content are exactly what is queued, in the
      order of the requests. */
  method RequestsWithPlayer(texts: seq<Option<string>>) returns (queued: seq<string>)
    ensures queued == Spoken(texts)
  {
    var server := new DemoServer();
    server.Startup(true);
    var p := server.ttsPlayer;
    for i := 0 to |texts|
      invariant server.ttsPlayer == p && p.attempted == []
      invariant TextsOf(p.queue) == Spoken(texts[..i])
    {
      assert texts[..i + 1][..i] == texts[..i];
      ghost var before := p.queue;
      var _ := server.SpeakText(texts[i]);
      if !NoTextGiven(texts[i]) {
        TextsOfAppend(before, [Speak(texts[i].value)]);
        assert TextsOf([Speak(texts[i].value)]) == [texts[i].value];
      }
    }
    assert texts[..|texts|] == texts;
    queued := TextsOf(p.queue);
  }
}
