/** The text-to-speech player of services.py (`TextToSpeechPlayer`, repeated
    verbatim in app.py): a FIFO of texts with a `None` sentinel, a running
    flag, and one consumer thread that synthesises and plays one item per
    loop iteration. The thread is modelled by its program counter, and each
    of its atomic steps is a method; `stop` runs it until it leaves the loop
    (the `join`). */
module Playback {

  /** A queue entry: a text to speak, or the `None` that ends the consumer. */
  datatype Item = Speak(text: string) | Sentinel

  /** Where the consumer thread is: about to test `while self.is_running`,
      inside `text_queue.get()` (blocked while the queue is empty), or gone. */
  datatype Consumer = AtCheck | InGet | Exited

  /** The speakable texts of a queue, in order. */
  function TextsOf(q: seq<Item>): (r: seq<string>)
    ensures |r| <= |q|
  {
    if q == [] then []
    else (if q[0].Speak? then [q[0].text] else []) + TextsOf(q[1..])
  }

  lemma {:induction false} TextsOfAppend(a: seq<Item>, b: seq<Item>)
    ensures TextsOf(a + b) == TextsOf(a) + TextsOf(b)
    decreases |a|
  {
    if a != [] {
      assert (a + b)[1..] == a[1..] + b;
      TextsOfAppend(a[1..], b);
    } else {
      assert a + b == b;
    }
  }

  /** The sentinel adds no text. */
  lemma TextsOfSentinel(q: seq<Item>)
    ensures TextsOf(q + [Sentinel]) == TextsOf(q)
    ensures TextsOf([Sentinel]) == []
  {
    TextsOfAppend(q, [Sentinel]);
  }

  class TextToSpeechPlayer {
    var queue: seq<Item>
    var isRunning: bool
    var consumer: Consumer
    /** The texts handed to the synthesiser, in the order it received them. */
    var attempted: seq<string>
    /** The texts that were synthesised and played to completion. */
    var played: seq<string>
    /** How many "Playback error" lines the consumer printed. */
    var failures: nat

    /** The constructor once the model file was found and loaded: an empty
        queue, the flag set, and the consumer started. */
    constructor ()
      ensures queue == [] && isRunning && consumer == AtCheck
      ensures attempted == [] && played == [] && failures == 0
    {
      queue := [];
      isRunning := true;
      consumer := AtCheck;
      attempted := [];
      played := [];
      failures := 0;
    }

    /** `say`: appends to the tail and returns at once. */
    method Say(text: string)
      modifies this
      ensures queue == old(queue) + [Speak(text)]
      ensures attempted + TextsOf(queue) == old(attempted + TextsOf(queue)) + [text]
      ensures isRunning == old(isRunning) && consumer == old(consumer)
      ensures attempted == old(attempted) && played == old(played) && failures == old(failures)
    {
      TextsOfAppend(queue, [Speak(text)]);
      assert TextsOf([Speak(text)]) == [text];
      queue := queue + [Speak(text)];
    }

    /** One atomic step of the consumer thread. At the loop test it leaves
        if the flag is clear. In `get()` it waits while the queue is empty;
        otherwise it takes the head: the sentinel ends the loop without
        synthesis, a text is handed to the synthesiser, and whether that
        succeeded (`ok`) or raised, the loop goes on to its next test. */
    method ConsumerStep(ok: bool)
      modifies this
      ensures isRunning == old(isRunning)
      ensures attempted + TextsOf(queue) == old(attempted + TextsOf(queue))
      ensures old(consumer) == AtCheck ==>
        && consumer == (if isRunning then InGet else Exited)
        && unchanged(this`queue, this`attempted, this`played, this`failures)
      ensures old(consumer) == InGet && old(queue) == [] ==> unchanged(this)
      ensures old(consumer) == InGet && old(queue) != [] && old(queue[0]) == Sentinel ==>
        && consumer == Exited && queue == old(queue[1..])
        && unchanged(this`attempted, this`played, this`failures)
      ensures old(consumer) == InGet && old(queue) != [] && old(queue[0]).Speak? ==>
        && consumer == AtCheck && queue == old(queue[1..])
        && attempted == old(attempted) + [old(queue[0].text)]
        && played == (if ok then old(played) + [old(queue[0].text)] else old(played))
        && failures == (if ok then old(failures) else old(failures) + 1)
      ensures old(consumer) == Exited ==> unchanged(this)
    {
      match consumer
      case AtCheck =>
        consumer := if isRunning then InGet else Exited;
      case InGet =>
        if queue != [] {
          var item := queue[0];
          assert queue == [item] + queue[1..];
          TextsOfAppend([item], queue[1..]);
          queue := queue[1..];
          if item == Sentinel {
            consumer := Exited;
          } else {
            attempted := attempted + [item.text];
            if ok {
              played := played + [item.text];
            } else {
              failures := failures + 1;
            }
            consumer := AtCheck;
          }
        }
      case Exited =>
    }

    /** `stop`: clears the flag, then enqueues the sentinel, then waits for
        the consumer to leave its loop. At most the text the consumer is
        already waiting for is still synthesised; the texts queued behind it
        stay in the queue unplayed. Stopping a stopped player only appends
        another sentinel. */
    method Stop(ok: bool)
      modifies this
      ensures !isRunning && consumer == Exited
      ensures attempted + TextsOf(queue) == old(attempted + TextsOf(queue))
      ensures old(consumer) != InGet ==>
        queue == old(queue) + [Sentinel] && unchanged(this`attempted, this`played, this`failures)
      ensures old(consumer) == InGet && old(queue) == [] ==>
        queue == [] && unchanged(this`attempted, this`played, this`failures)
      ensures old(consumer) == InGet && old(queue) != [] ==> queue == old(queue[1..]) + [Sentinel]
      ensures old(consumer) == InGet && old(queue) != [] && old(queue[0]) == Sentinel ==>
        unchanged(this`attempted, this`played, this`failures)
      ensures old(consumer) == InGet && old(queue) != [] && old(queue[0]).Speak? ==>
        && attempted == old(attempted) + [old(queue[0].text)]
        && played == (if ok then old(played) + [old(queue[0].text)] else old(played))
        && failures == (if ok then old(failures) else old(failures) + 1)
    {
      isRunning := false;
      TextsOfSentinel(queue);
      queue := queue + [Sentinel];
      ghost var q0 := queue;
      ghost var a0 := attempted;
      ghost var p0 := played;
      ghost var f0 := failures;
      ghost var c0 := consumer;
      while consumer != Exited
        invariant !isRunning
        invariant attempted + TextsOf(queue) == old(attempted + TextsOf(queue))
        invariant c0 != InGet ==> queue == q0 && attempted == a0 && played == p0 && failures == f0
        invariant c0 != InGet ==> consumer != InGet
        invariant c0 == InGet && consumer == InGet ==>
          queue == q0 && attempted == a0 && played == p0 && failures == f0
        invariant c0 == InGet && consumer != InGet ==>
          && queue == q0[1..]
          && (q0[0] == Sentinel ==> consumer == Exited && attempted == a0 && played == p0 && failures == f0)
          && (q0[0].Speak? ==> && attempted == a0 + [q0[0].text]
                               && played == (if ok then p0 + [q0[0].text] else p0)
                               && failures == (if ok then f0 else f0 + 1))
        decreases match consumer case InGet => 2 case AtCheck => 1 case Exited => 0
      {
        ConsumerStep(ok);
      }
    }
  }

  /** One call on a player: a client's `say` or `stop`, or one step of the
      consumer thread (with the outcome of a synthesis it performs). */
  datatype Call = SayCall(text: string) | StepCall(ok: bool) | StopCall(ok: bool)

  function SaidTexts(calls: seq<Call>): seq<string>
  {
    if calls == [] then []
    else SaidTexts(calls[..|calls| - 1])
         + (if calls[|calls| - 1].SayCall? then [calls[|calls| - 1].text] else [])
  }

  /** FIFO: under any interleaving of calls on a fresh player, the texts
      handed to the synthesiser are a prefix of the texts said, in order;
      the rest are still queued. */
  method Interleaving(calls: seq<Call>) returns (attempted: seq<string>, said: seq<string>)
    ensures said == SaidTexts(calls)
    ensures attempted <= said
  {
    var p := new TextToSpeechPlayer();
    for i := 0 to |calls|
      invariant p.attempted + TextsOf(p.queue) == SaidTexts(calls[..i])
    {
      assert calls[..i + 1][..i] == calls[..i];
      match calls[i]
      case SayCall(t) => p.Say(t);
      case StepCall(ok) => p.ConsumerStep(ok);
      case StopCall(ok) => p.Stop(ok);
    }
    assert calls[..|calls|] == calls;
    attempted, said := p.attempted, SaidTexts(calls);
  }

  /** Three texts said to an idle player are synthesised in the order said. */
  method InOrder() returns (attempted: seq<string>)
    ensures attempted == ["a", "b", "c"]
  {
    var p := new TextToSpeechPlayer();
    p.ConsumerStep(true);  // the consumer reaches get() and waits
    p.Say("a");
    p.Say("b");
    p.Say("c");
    p.ConsumerStep(true);
    p.ConsumerStep(true);
    p.ConsumerStep(true);
    p.ConsumerStep(true);
    p.ConsumerStep(true);
    attempted := p.attempted;
  }

  /** `say("Hi")` then at once `stop()` on an idle player: the consumer was
      already waiting in get(), so "Hi" is still synthesised. */
  method SayThenStop() returns (attempted: seq<string>, stopped: bool)
    ensures attempted == ["Hi"] && stopped
  {
    var p := new TextToSpeechPlayer();
    p.ConsumerStep(true);
    p.Say("Hi");
    p.Stop(true);
    attempted, stopped := p.attempted, p.consumer == Exited;
  }

  /** `stop()` does not drain: with "a" being spoken and "b" waiting, the
      consumer sees the cleared flag after "a" and leaves, and "b" is never
      synthesised. A second `stop()` raises nothing and changes nothing
      but the extra sentinel. */
  method StopSkipsWaiting() returns (attempted: seq<string>, waiting: seq<string>)
    ensures attempted == ["a"] && waiting == ["b"]
  {
    var p := new TextToSpeechPlayer();
    p.ConsumerStep(true);
    p.Say("a");
    p.Say("b");
    p.ConsumerStep(true);  // takes "a" and plays it
    p.Stop(true);
    p.Stop(true);
    TextsOfAppend([Speak("b")], [Sentinel]);
    TextsOfAppend([Speak("b"), Sentinel], [Sentinel]);
    attempted, waiting := p.attempted, TextsOf(p.queue);
  }
}
