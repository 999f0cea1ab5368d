/** The streaming speech recogniser of services.py (`SpeechRecognizer`): the
    audio stream's lifecycle, the cooperative `is_running` flag, and the loop
    that turns the recognition engine's per-frame reports into deduplicated
    partial/final/error events on the client's socket. */
module Recognition {
  import opened Wrappers
  import opened Text

  /** What the engine reports in one iteration of the frame loop. */
  datatype Observation =
    /** `AcceptWaveform` returned true; the result's "text" key, if it has one. */
    | Accepted(text: Option<string>)
    /** `AcceptWaveform` returned false; the partial result's "partial" key, if any. */
    | NotAccepted(partial: Option<string>)
    /** The iteration raised (device read, decoding or sending failed);
        `reported` says whether the handler's own `send_json` of the error
        message then succeeds. It does not when the client is gone, which is
        always the case when the failure was a send: that second exception
        leaves the loop with no error event delivered. */
    | Fail(message: string, reported: bool)

  /** A message sent to the client: `{"type": ..., "text": ...}`. */
  datatype Event = Partial(text: string) | Final(text: string) | Error(text: string)

  const ErrorPrefix: string := "Ошибка распознавания: "

  /** The loop's two locals `last_final_text` and `last_partial_text`. */
  datatype Memo = Memo(lastFinal: string, lastPartial: string)

  const InitialMemo: Memo := Memo("", "")

  /** What one iteration that does not raise sends, and the memo afterwards. */
  datatype StepOutcome = StepOutcome(memo: Memo, sent: Option<Event>)

  function Step(m: Memo, o: Observation): StepOutcome
    requires !o.Fail?
  {
    match o
    case Accepted(t) =>
      if t.Some? && Strip(t.value) != [] && t.value != m.lastFinal
      then StepOutcome(Memo(t.value, ""), Some(Final(t.value)))
      else StepOutcome(m, None)
    case NotAccepted(p) =>
      if p.Some? && Strip(p.value) != [] && p.value != m.lastPartial && p.value != m.lastFinal
      then StepOutcome(m.(lastPartial := p.value), Some(Partial(p.value)))
      else StepOutcome(m, None)
  }

  function OptSeq(e: Option<Event>): seq<Event>
  {
    if e.Some? then [e.value] else []
  }

  /** The error event a raising iteration delivers, if its report gets through. */
  function Report(o: Observation): seq<Event>
    requires o.Fail?
  {
    if o.reported then [Error(ErrorPrefix + o.message)] else []
  }

  /** The events the loop delivers for the observations of its iterations,
      from memo `m`: it stops after the first failing iteration. */
  function Run(m: Memo, obs: seq<Observation>): seq<Event>
    decreases |obs|
  {
    if obs == [] then []
    else if obs[0].Fail? then Report(obs[0])
    else
      var out := Step(m, obs[0]);
      OptSeq(out.sent) + Run(out.memo, obs[1..])
  }

  /** The observations of the first `n` iterations. */
  function Frames(engine: nat -> Observation, n: nat): (f: seq<Observation>)
    ensures |f| == n && forall k :: 0 <= k < n ==> f[k] == engine(k)
  {
    seq(n, k requires 0 <= k < n => engine(k))
  }

  // ---------------------------------------------------------------------
  // What one iteration sends

  /** A final event is sent exactly when the engine accepted the waveform, the
      result has a "text" whose strip is non-empty, and it differs from the
      last final sent; sending it records it and clears the partial memo. */
  lemma StepFinal(m: Memo, o: Observation, t: string)
    requires !o.Fail?
    ensures Step(m, o).sent == Some(Final(t))
        <==> o == Accepted(Some(t)) && Strip(t) != [] && t != m.lastFinal
    ensures Step(m, o).sent == Some(Final(t)) ==> Step(m, o).memo == Memo(t, "")
  {
  }

  /** A partial event is sent exactly when the engine did not accept, the
      partial is non-blank, and it differs from both the last partial and the
      last final; sending it records it as the last partial. */
  lemma StepPartial(m: Memo, o: Observation, t: string)
    requires !o.Fail?
    ensures Step(m, o).sent == Some(Partial(t))
        <==> o == NotAccepted(Some(t)) && Strip(t) != [] && t != m.lastPartial && t != m.lastFinal
    ensures Step(m, o).sent == Some(Partial(t)) ==> Step(m, o).memo == m.(lastPartial := t)
  {
  }

  /** An iteration that sends nothing leaves both memos as they were, and no
      iteration sends an error. */
  lemma StepQuiet(m: Memo, o: Observation)
    requires !o.Fail?
    ensures Step(m, o).sent == None ==> Step(m, o).memo == m
    ensures Step(m, o).sent.Some? ==> !Step(m, o).sent.value.Error?
  {
  }

  // ---------------------------------------------------------------------
  // The deduplication invariant over a whole stream

  /** The text of the most recent final event, "" if none. */
  function LastFinal(evs: seq<Event>): string
  {
    if evs == [] then ""
    else if evs[|evs| - 1].Final? then evs[|evs| - 1].text
    else LastFinal(evs[..|evs| - 1])
  }

  /** The text of the most recent partial event since the most recent final, "" if none. */
  function LastPartial(evs: seq<Event>): string
  {
    if evs == [] then ""
    else if evs[|evs| - 1].Final? then ""
    else if evs[|evs| - 1].Partial? then evs[|evs| - 1].text
    else LastPartial(evs[..|evs| - 1])
  }

  /** Whether `e` may follow the events `before`: finals and partials are never
      blank; a final never repeats the most recent final; a partial never
      repeats the most recent final nor the most recent partial since it. */
  predicate Admissible(before: seq<Event>, e: Event)
  {
    match e
    case Final(t) => Strip(t) != [] && t != LastFinal(before)
    case Partial(t) => Strip(t) != [] && t != LastFinal(before) && t != LastPartial(before)
    case Error(_) => true
  }

  /** Every event is admissible after the ones before it, and only the last
      one can be an error. */
  predicate Deduped(evs: seq<Event>)
    decreases |evs|
  {
    evs != [] ==>
      var before := evs[..|evs| - 1];
      && Deduped(before)
      && Admissible(before, evs[|evs| - 1])
      && (before != [] ==> !before[|before| - 1].Error?)
  }

  /** The per-position reading of `Deduped`. */
  lemma {:induction false} DedupedAt(evs: seq<Event>, i: nat)
    requires Deduped(evs) && i < |evs|
    ensures Admissible(evs[..i], evs[i])
    ensures i < |evs| - 1 ==> !evs[i].Error?
    decreases |evs|
  {
    if i < |evs| - 1 {
      var before := evs[..|evs| - 1];
      DedupedAt(before, i);
      assert before[..i] == evs[..i] && before[i] == evs[i];
    }
  }

  function MemoOf(evs: seq<Event>): Memo
  {
    Memo(LastFinal(evs), LastPartial(evs))
  }

  lemma AppendAssoc(a: seq<Event>, b: seq<Event>, c: seq<Event>)
    ensures a + (b + c) == (a + b) + c
  {
  }

  /** One step of `Run`, unfolded. */
  lemma RunUnfold(m: Memo, obs: seq<Observation>)
    requires obs != [] && !obs[0].Fail?
    ensures Run(m, obs) == OptSeq(Step(m, obs[0]).sent) + Run(Step(m, obs[0]).memo, obs[1..])
  {
  }

  /** What the loop sends in an iteration is admissible after the history whose memo it holds. */
  lemma StepAdmissible(h: seq<Event>, o: Observation)
    requires !o.Fail?
    ensures var out := Step(MemoOf(h), o);
      && (out.sent.Some? ==> Admissible(h, out.sent.value))
      && MemoOf(h + OptSeq(out.sent)) == out.memo
  {
    var out := Step(MemoOf(h), o);
    var h' := h + OptSeq(out.sent);
    if out.sent.Some? {
      assert h'[..|h'| - 1] == h;
    } else {
      assert h' == h;
    }
  }

  lemma DedupedExtend(h: seq<Event>, e: Event)
    requires Deduped(h) && (h != [] ==> !h[|h| - 1].Error?)
    requires Admissible(h, e)
    ensures Deduped(h + [e])
  {
    assert (h + [e])[..|h|] == h;
  }

  /** Generalised dedup: from a history whose memo the loop holds, running
      further iterations keeps the whole event sequence deduplicated. */
  lemma {:induction false} RunDedupedFrom(h: seq<Event>, obs: seq<Observation>)
    requires Deduped(h) && (h != [] ==> !h[|h| - 1].Error?)
    ensures Deduped(h + Run(MemoOf(h), obs))
    decreases |obs|
  {
    if obs == [] {
      assert h + [] == h;
    } else if obs[0].Fail? {
      if obs[0].reported {
        DedupedExtend(h, Error(ErrorPrefix + obs[0].message));
      } else {
        assert h + [] == h;
      }
    } else {
      var m := MemoOf(h);
      var out := Step(m, obs[0]);
      var sent := OptSeq(out.sent);
      var h' := h + sent;
      StepAdmissible(h, obs[0]);
      StepQuiet(m, obs[0]);
      if out.sent.Some? {
        assert sent == [out.sent.value];
        DedupedExtend(h, out.sent.value);
      } else {
        assert h' == h;
      }
      assert MemoOf(h') == out.memo;
      RunDedupedFrom(h', obs[1..]);
      var rest := Run(out.memo, obs[1..]);
      RunUnfold(m, obs);
      assert Run(m, obs) == sent + rest;
      AppendAssoc(h, sent, rest);
    }
  }

  /** Every event sequence the loop produces is deduplicated, and an error
      event, if any, is the last one. */
  lemma RunDeduped(obs: seq<Observation>)
    ensures Deduped(Run(InitialMemo, obs))
  {
    RunDedupedFrom([], obs);
    assert [] + Run(InitialMemo, obs) == Run(InitialMemo, obs);
  }

  /** Two consecutive events are never identical. */
  lemma DedupedNoRepeat(evs: seq<Event>, i: nat)
    requires Deduped(evs) && i + 1 < |evs|
    ensures evs[i] != evs[i + 1]
  {
    DedupedAt(evs, i);
    DedupedAt(evs, i + 1);
    assert evs[..i + 1][..i] == evs[..i];
    assert evs[..i + 1][i] == evs[i];
  }

  /** A partial event never carries the text of the most recent final event. */
  lemma DedupedPartialAfterFinal(evs: seq<Event>, i: nat, j: nat)
    requires Deduped(evs) && i < j < |evs|
    requires evs[i].Final? && evs[j].Partial?
    requires forall k :: i < k < j ==> !evs[k].Final?
    ensures evs[j].text != evs[i].text
  {
    LastFinalSince(evs[..j], i);
    DedupedAt(evs, j);
  }

  lemma {:induction false} LastFinalSince(evs: seq<Event>, i: nat)
    requires i < |evs| && evs[i].Final?
    requires forall k :: i < k < |evs| ==> !evs[k].Final?
    ensures LastFinal(evs) == evs[i].text
    decreases |evs|
  {
    if i < |evs| - 1 {
      var p := evs[..|evs| - 1];
      assert p[i] == evs[i];
      LastFinalSince(p, i);
    }
  }

  // ---------------------------------------------------------------------
  // Errors end the stream

  /** Whether the loop ends with an exception escaping `recognize_stream`:
      the first raising iteration could not report its error. */
  function EndsRaising(obs: seq<Observation>): bool
    decreases |obs|
  {
    if obs == [] then false
    else if obs[0].Fail? then !obs[0].reported
    else EndsRaising(obs[1..])
  }

  /** An iteration that raises delivers the error event ("Ошибка
      распознавания: " + message) exactly when its report gets through, and
      nothing later in the stream is looked at; the loop then raises exactly
      when the report failed. No error precedes it. */
  lemma {:induction false} RunStopsAtFail(m: Memo, pre: seq<Observation>, msg: string, reported: bool,
                                          post: seq<Observation>)
    requires forall k :: 0 <= k < |pre| ==> !pre[k].Fail?
    ensures Run(m, pre + [Fail(msg, reported)] + post)
         == Run(m, pre) + (if reported then [Error(ErrorPrefix + msg)] else [])
    ensures EndsRaising(pre + [Fail(msg, reported)] + post) == !reported
    ensures forall k :: 0 <= k < |Run(m, pre)| ==> !Run(m, pre)[k].Error?
    decreases |pre|
  {
    var obs := pre + [Fail(msg, reported)] + post;
    if pre == [] {
      assert obs[0] == Fail(msg, reported);
    } else {
      assert obs[0] == pre[0];
      assert obs[1..] == pre[1..] + [Fail(msg, reported)] + post;
      var out := Step(m, pre[0]);
      RunStopsAtFail(out.memo, pre[1..], msg, reported, post);
      StepQuiet(m, pre[0]);
    }
  }

  /** The worked example: partial "hel", partial "hello", final "hello", then
      partial "hello" again gives P("hel"), P("hello"), F("hello"); the last
      partial repeats the final and is suppressed. */
  lemma HelloExample()
    ensures Run(InitialMemo, [NotAccepted(Some("hel")), NotAccepted(Some("hello")),
                              Accepted(Some("hello")), NotAccepted(Some("hello"))])
         == [Partial("hel"), Partial("hello"), Final("hello")]
  {
    StripOfTrimmed("hel");
    StripOfTrimmed("hello");
    var obs := [NotAccepted(Some("hel")), NotAccepted(Some("hello")),
                Accepted(Some("hello")), NotAccepted(Some("hello"))];
    assert obs[1..] == [NotAccepted(Some("hello")), Accepted(Some("hello")), NotAccepted(Some("hello"))];
    assert obs[1..][1..] == [Accepted(Some("hello")), NotAccepted(Some("hello"))];
    assert obs[1..][1..][1..] == [NotAccepted(Some("hello"))];
  }

  // ---------------------------------------------------------------------
  // The object

  /** `self.stream`: none, or a PyAudio input stream that may have become inactive. */
  datatype StreamHandle = NoStream | Handle(active: bool)

  class SpeechRecognizer {
    var stream: StreamHandle
    var isRunning: bool
    /** How many times `close_stream` has terminated and recreated the PyAudio object. */
    var audioResets: nat

    /** The constructor after the model file was found and loaded. */
    constructor ()
      ensures stream == NoStream && !isRunning && audioResets == 0
    {
      stream := NoStream;
      isRunning := false;
      audioResets := 0;
    }

    /** Opens a new stream unless an active one exists; `opens` says whether
        `audio.open` succeeds. When it raises, `self.stream` is left as it was
        and the exception goes to the caller (`ok` is false). */
    method OpenStream(opens: bool) returns (ok: bool)
      modifies this
      ensures ok <==> old(stream) == Handle(true) || opens
      ensures ok ==> stream == Handle(true)
      ensures !ok ==> stream == old(stream)
      ensures old(stream) == Handle(true) ==> unchanged(this)
      ensures isRunning == old(isRunning) && audioResets == old(audioResets)
    {
      if stream == NoStream || !stream.active {
        if !opens {
          return false;
        }
        stream := Handle(true);
      }
      return true;
    }

    /** Closes the stream if there is one, and always resets the audio system. */
    method CloseStream()
      modifies this
      ensures stream == NoStream
      ensures audioResets == old(audioResets) + 1 && isRunning == old(isRunning)
    {
      if stream != NoStream {
        stream := NoStream;
      }
      audioResets := audioResets + 1;
    }

    /** Only clears the flag; calling it again changes nothing. */
    method Stop()
      modifies this
      ensures !isRunning
      ensures stream == old(stream) && audioResets == old(audioResets)
    {
      isRunning := false;
    }

    /** The body of one iteration that does not raise: the text checks
        against the two memos. */
    static method Iterate(o: Observation, lastFinal: string, lastPartial: string)
      returns (sent: Option<Event>, lastFinalText: string, lastPartialText: string)
      requires !o.Fail?
      ensures Step(Memo(lastFinal, lastPartial), o) == StepOutcome(Memo(lastFinalText, lastPartialText), sent)
    {
      lastFinalText, lastPartialText := lastFinal, lastPartial;
      sent := None;
      if o.Accepted? {
        if o.text.Some? && Strip(o.text.value) != [] {
          var currentText := o.text.value;
          if currentText != lastFinalText {
            sent := Some(Final(currentText));
            lastFinalText := currentText;
            lastPartialText := "";
          }
        }
      } else {
        if o.partial.Some? && Strip(o.partial.value) != [] {
          var currentPartial := o.partial.value;
          if currentPartial != lastPartialText && currentPartial != lastFinalText {
            sent := Some(Partial(currentPartial));
            lastPartialText := currentPartial;
          }
        }
      }
    }

    /** `recognize_stream`: `opens` says whether `open_stream` succeeds and
        `builds` whether `KaldiRecognizer(...)` does; both run before the
        `try`, so a failure there raises with no event sent and without
        `close_stream`, and a stream just opened stays open. Once inside the
        `try`, the engine's report for iteration k is `engine(k)` and a
        concurrent `stop()` arrives during iteration `stopAfter`, which the
        loop notices at its next `while` check. The events delivered are
        those of the pure filter over the iterations that ran; the `finally`
        closes the stream and clears the flag on every exit path of the loop.
        `raised` says whether an exception leaves `recognize_stream`: a start
        that fails, or an error report that could not be sent. */
    method RecognizeStream(engine: nat -> Observation, stopAfter: nat, opens: bool, builds: bool)
      returns (events: seq<Event>, raised: bool)
      modifies this
      ensures !((old(stream) == Handle(true) || opens) && builds) ==>
        && events == [] && raised && !isRunning && audioResets == old(audioResets)
        && stream == (if old(stream) == Handle(true) || opens then Handle(true) else old(stream))
      ensures (old(stream) == Handle(true) || opens) && builds ==>
        && events == Run(InitialMemo, Frames(engine, stopAfter + 1))
        && raised == EndsRaising(Frames(engine, stopAfter + 1))
        && stream == NoStream && !isRunning
        && audioResets == old(audioResets) + 1
    {
      Stop();
      var ok := OpenStream(opens);
      if !ok || !builds {
        return [], true;
      }
      ghost var frames := Frames(engine, stopAfter + 1);
      isRunning := true;
      var lastFinalText, lastPartialText := "", "";
      events, raised := [], false;
      var i := 0;
      while isRunning
        invariant i <= stopAfter + 1 && (isRunning ==> i <= stopAfter)
        invariant !isRunning ==> i == stopAfter + 1
        invariant stream == Handle(true) && audioResets == old(audioResets)
        invariant events + Run(Memo(lastFinalText, lastPartialText), frames[i..]) == Run(InitialMemo, frames)
        invariant isRunning ==> !raised && EndsRaising(frames[i..]) == EndsRaising(frames)
        invariant !isRunning ==> raised == EndsRaising(frames)
        decreases stopAfter + 1 - i
      {
        var o := engine(i);
        ghost var before := Memo(lastFinalText, lastPartialText);
        assert frames[i..][0] == o && frames[i..][1..] == frames[i + 1..];
        if o.Fail? {
          if o.reported {
            events := events + [Error(ErrorPrefix + o.message)];
          } else {
            raised := true;
          }
          break;
        }
        var sent;
        sent, lastFinalText, lastPartialText := Iterate(o, lastFinalText, lastPartialText);
        RunUnfold(before, frames[i..]);
        ghost var rest := Run(Memo(lastFinalText, lastPartialText), frames[i + 1..]);
        AppendAssoc(events, OptSeq(sent), rest);
        events := events + OptSeq(sent);
        assert events + rest == Run(InitialMemo, frames);
        // the yield point, where a concurrent stop() can be delivered
        if i == stopAfter {
          Stop();
        }
        i := i + 1;
      }
      CloseStream();
      isRunning := false;
    }
  }
}
