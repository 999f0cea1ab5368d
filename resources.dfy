/** `UserResources` of services.py: per user id, a bundle of three optional
    slots. The Python bundle is a dict with three keys that callers update in
    place; here it is an object with three nullable fields. */
module Resources {
  import opened Playback
  import opened Recognition
  import opened Assistant

  class Bundle {
    var ttsPlayer: TextToSpeechPlayer?
    /** Never filled: the endpoints use one global recognizer. */
    var speechRecognizer: SpeechRecognizer?
    var englishAssistant: EnglishAssistant?

    /** `{"tts_player": None, "speech_recognizer": None, "english_assistant": None}`. */
    constructor ()
      ensures ttsPlayer == null && speechRecognizer == null && englishAssistant == null
    {
      ttsPlayer := null;
      speechRecognizer := null;
      englishAssistant := null;
    }
  }

  class UserResources {
    var resources: map<string, Bundle>

    constructor ()
      ensures resources == map[] && Valid()
    {
      resources := map[];
    }

    /** Each user's resources are their own: distinct ids hold distinct
        bundles, and no player or assistant object sits in two bundles. */
    ghost predicate Valid()
      reads this, resources.Values
    {
      forall x, y :: x in resources && y in resources && x != y ==>
        && resources[x] != resources[y]
        && (resources[x].ttsPlayer != null ==> resources[x].ttsPlayer != resources[y].ttsPlayer)
        && (resources[x].englishAssistant != null ==> resources[x].englishAssistant != resources[y].englishAssistant)
    }

    /** The players held by some bundle. */
    function Players(): set<TextToSpeechPlayer>
      reads this, resources.Values
    {
      set b | b in resources.Values && b.ttsPlayer != null :: b.ttsPlayer
    }

    /** The assistants held by some bundle. */
    function Assistants(): set<EnglishAssistant>
      reads this, resources.Values
    {
      set b | b in resources.Values && b.englishAssistant != null :: b.englishAssistant
    }

    /** Whether the user's bundle exists and its assistant slot is filled. */
    predicate HasAssistant(userId: string)
      reads this, resources.Values
    {
      userId in resources && resources[userId].englishAssistant != null
    }

    /** `get_or_create_resources`: the user's existing bundle, untouched, or a
        new empty bundle stored under the id; no other entry changes. */
    method GetOrCreate(userId: string) returns (b: Bundle)
      modifies this
      ensures userId in old(resources) ==> b == old(resources[userId]) && resources == old(resources)
      ensures userId !in old(resources) ==>
        && fresh(b) && resources == old(resources)[userId := b]
        && b.ttsPlayer == null && b.speechRecognizer == null && b.englishAssistant == null
      ensures userId in resources && resources[userId] == b
      ensures old(Valid()) ==> Valid()
    {
      if userId !in resources {
        var nb := new Bundle();
        resources := resources[userId := nb];
      }
      b := resources[userId];
    }

    /** `cleanup_resources`: for a known id, stops its player if there is
        one and then removes only that entry; an unknown id changes nothing. */
    method Cleanup(userId: string, ok: bool)
      modifies this, Players()
      ensures resources == old(resources) - {userId}
      ensures userId in old(resources) && old(resources[userId].ttsPlayer) != null ==>
        var p := old(resources[userId].ttsPlayer);
        && !p.isRunning && p.consumer == Exited
        && p.attempted + TextsOf(p.queue) == old(p.attempted + TextsOf(p.queue))
      ensures forall p :: p in old(Players()) && !(userId in old(resources) && p == old(resources[userId].ttsPlayer))
                          ==> unchanged(p)
      ensures userId !in old(resources) ==> unchanged(Players())
      ensures Players() <= old(Players())
      ensures old(Valid()) ==> Valid()
    {
      if userId in resources {
        var bundle := resources[userId];
        if bundle.ttsPlayer != null {
          bundle.ttsPlayer.Stop(ok);
        }
        resources := map k | k in resources && k != userId :: resources[k];
      }
    }
  }

  /** Between the old and the current state, user `x`, if it was there,
      keeps its bundle, and that bundle, its player and its assistant are
      exactly as they were. */
  twostate predicate Kept(ur: UserResources, x: string)
    reads *
  {
    x in old(ur.resources) ==>
      && x in ur.resources && ur.resources[x] == old(ur.resources[x])
      && unchanged(old(ur.resources[x]))
      && (old(ur.resources[x].ttsPlayer) != null ==> unchanged(old(ur.resources[x].ttsPlayer)))
      && (old(ur.resources[x].englishAssistant) != null ==> unchanged(old(ur.resources[x].englishAssistant)))
  }

  /** Every user other than `id` is kept. */
  twostate predicate OthersKept(ur: UserResources, id: string)
    reads *
  {
    forall x :: x != id ==> Kept(ur, x)
  }

  /** Every user is kept. */
  twostate predicate AllKept(ur: UserResources)
    reads *
  {
    forall x :: Kept(ur, x)
  }

  /** When only user `id`'s bundle `b` (the old one, or a new one) and that
      user's old player and assistant may have changed, and `b` holds its
      old objects or new ones, every other user is kept and the resources
      stay each user's own. */
  twostate lemma KeepOthers(new ur: UserResources, id: string, new b: Bundle)
    requires old(allocated(ur)) && old(ur.Valid())
    requires ur.resources == old(ur.resources)[id := b]
    requires id in old(ur.resources) ==> b == old(ur.resources[id])
    requires id !in old(ur.resources) ==> fresh(b)
    requires forall o :: o in old(ur.resources.Values) && o != b ==> unchanged(o)
    requires forall p :: p in old(ur.Players()) && !(id in old(ur.resources) && p == old(ur.resources[id].ttsPlayer))
                         ==> unchanged(p)
    requires forall a :: a in old(ur.Assistants())
                         && !(id in old(ur.resources) && a == old(ur.resources[id].englishAssistant))
                         ==> unchanged(a)
    requires b.ttsPlayer == null || fresh(b.ttsPlayer)
             || (id in old(ur.resources) && b.ttsPlayer == old(ur.resources[id].ttsPlayer))
    requires b.englishAssistant == null || fresh(b.englishAssistant)
             || (id in old(ur.resources) && b.englishAssistant == old(ur.resources[id].englishAssistant))
    ensures OthersKept(ur, id) && ur.Valid()
  {
    forall x | x != id && x in old(ur.resources)
      ensures Kept(ur, x)
    {
      var o := old(ur.resources[x]);
      assert o in old(ur.resources.Values);
      if old(o.ttsPlayer) != null {
        assert old(o.ttsPlayer) in old(ur.Players());
      }
      if old(o.englishAssistant) != null {
        assert old(o.englishAssistant) in old(ur.Assistants());
      }
    }
  }
}
