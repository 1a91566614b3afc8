/**
 * lib/DeepgramSpeechSynthesisAdapter.ts: text-to-speech through the Deepgram
 * endpoint. Each `speak` call starts an utterance whose status runs until one
 * terminal transition (playback finished, cancelled, or failed); the
 * transition notifies every subscriber registered at that moment, and a
 * callback that subscribes after the end is scheduled instead. The adapter
 * creates its audio context on first use and reuses it.
 *
 * The utterance's state is given as a value (`UState`) with one step
 * function per operation, over which the trace properties are proved; the
 * class `Utterance` performs the same operations in place and is proved to
 * follow the step functions.
 */
module SpeechSynthesis {
  import opened Wrappers
  import opened JsText

  /** Why an utterance ended. */
  datatype Reason = Finished | Error | Cancelled

  /** The utterance status: running, or ended with a reason and, for a failure,
      the error's message. */
  datatype Status = Running | Ended(reason: Reason, error: Option<string>)

  /** A subscriber callback, identified by the function object it is. */
  type Callback = nat

  /** What `subscribe` returns: the no-op, or the function that deletes `cb`. */
  datatype Handle = NoOp | Remove(cb: Callback)

  /** The utterance state: the status, the subscriber set in insertion order (the
      order `forEach` visits), every callback invocation so far in order, the
      callbacks queued with `queueMicrotask`, and whether `source.stop()` ran. */
  datatype UState = UState(
    status: Status,
    subscribers: seq<Callback>,
    notified: seq<Callback>,
    scheduled: seq<Callback>,
    stopped: bool)

  /** What happens to an utterance after `speak` returned it. */
  datatype Event =
    | PlaybackEnded
    | CancelCalled
    | SubscribeCalled(cb: Callback)
    | UnsubscribeCalled(h: Handle)

  predicate Distinct(xs: seq<Callback>) {
    forall i, j :: 0 <= i < j < |xs| ==> xs[i] != xs[j]
  }

  /** `set.add(cb)`: a new member goes last, an existing one stays where it is. */
  function Add(xs: seq<Callback>, cb: Callback): (r: seq<Callback>)
    ensures forall x :: x in r <==> x in xs || x == cb
    ensures Distinct(xs) ==> Distinct(r)
    ensures cb in xs ==> r == xs
    ensures cb !in xs ==> r == xs + [cb]
  {
    if cb in xs then xs else xs + [cb]
  }

  /** `set.delete(cb)`: the other members keep their order. */
  function Delete(xs: seq<Callback>, cb: Callback): (r: seq<Callback>)
    ensures forall x :: x in r <==> x in xs && x != cb
    ensures Distinct(xs) ==> Distinct(r)
    ensures |r| <= |xs|
  {
    if xs == [] then []
    else if xs[0] == cb then Delete(xs[1..], cb)
    else
      var rest := Delete(xs[1..], cb);
      DistinctAfterHead(xs, rest);
      [xs[0]] + rest
  }

  /** Keeping the head of a distinct list in front of members of its tail that are
      themselves distinct gives a distinct list. */
  lemma DistinctAfterHead(xs: seq<Callback>, rest: seq<Callback>)
    requires xs != [] && forall x :: x in rest ==> x in xs[1..]
    requires Distinct(xs[1..]) ==> Distinct(rest)
    ensures Distinct(xs) ==> Distinct([xs[0]] + rest)
  {
    if Distinct(xs) {
      assert Distinct(xs[1..]) by {
        forall i, j | 0 <= i < j < |xs| - 1 ensures xs[1..][i] != xs[1..][j] {
          assert xs[1..][i] == xs[i + 1] && xs[1..][j] == xs[j + 1];
        }
      }
      assert xs[0] !in xs[1..] by {
        forall k | 0 <= k < |xs| - 1 ensures xs[1..][k] != xs[0] {
          assert xs[1..][k] == xs[k + 1];
        }
      }
      var r := [xs[0]] + rest;
      forall i, j | 0 <= i < j < |r| ensures r[i] != r[j] {
        if i == 0 {
          assert r[j] == rest[j - 1];
        } else {
          assert r[i] == rest[i - 1] && r[j] == rest[j - 1];
        }
      }
    }
  }

  /** The state of a fresh utterance: running, no subscribers, nothing done yet. */
  function Initial(): UState {
    UState(Running, [], [], [], false)
  }

  // ---------------------------------------------------------------------------
  // The operations as step functions

  /** `handleEnd(reason, error)`: nothing once ended; otherwise the status ends and
      every current subscriber is invoked once, in set order. */
  function OnEnd(s: UState, reason: Reason, error: Option<string>): (t: UState)
    ensures s.status.Ended? ==> t == s
    ensures s.status.Running? ==> t == s.(status := Ended(reason, error), notified := s.notified + s.subscribers)
  {
    if s.status.Ended? then s
    else s.(status := Ended(reason, error), notified := s.notified + s.subscribers)
  }

  /** `subscribe(cb)`: after the end, `cb` is queued and the no-op returned; before,
      `cb` joins the set and the function deleting it is returned. */
  function OnSubscribe(s: UState, cb: Callback): (r: (UState, Handle))
    ensures s.status.Ended? ==> r == (s.(scheduled := s.scheduled + [cb]), NoOp)
    ensures s.status.Running? ==>
      r.1 == Remove(cb) && r.0.scheduled == s.scheduled
      && (forall x :: x in r.0.subscribers <==> x in s.subscribers || x == cb)
  {
    if s.status.Ended? then (s.(scheduled := s.scheduled + [cb]), NoOp)
    else (s.(subscribers := Add(s.subscribers, cb)), Remove(cb))
  }

  /** Calling a handle `subscribe` returned. */
  function OnUnsubscribe(s: UState, h: Handle): (t: UState)
    ensures h.NoOp? ==> t == s
    ensures h.Remove? ==>
      (forall x :: x in t.subscribers <==> x in s.subscribers && x != h.cb)
      && t.status == s.status && t.notified == s.notified
  {
    match h
    case NoOp => s
    case Remove(cb) => s.(subscribers := Delete(s.subscribers, cb))
  }

  /** One event: playback's `onended` calls `handleEnd("finished")`; `cancel` stops
      the source, then calls `handleEnd("cancelled")`. */
  function Step(s: UState, e: Event): UState {
    match e
    case PlaybackEnded => OnEnd(s, Finished, None)
    case CancelCalled => OnEnd(s.(stopped := true), Cancelled, None)
    case SubscribeCalled(cb) => OnSubscribe(s, cb).0
    case UnsubscribeCalled(h) => OnUnsubscribe(s, h)
  }

  /** The state after a sequence of events. */
  function Run(s: UState, evs: seq<Event>): UState
    decreases |evs|
  {
    if evs == [] then s else Run(Step(s, evs[0]), evs[1..])
  }

  /** The number of events in a run that changed the status. */
  function Transitions(s: UState, evs: seq<Event>): nat
    decreases |evs|
  {
    if evs == [] then 0
    else
      var t := Step(s, evs[0]);
      (if t.status != s.status then 1 else 0) + Transitions(t, evs[1..])
  }

  // ---------------------------------------------------------------------------
  // Trace properties

  /** The invariant: set members are distinct, no callback has been invoked twice by
      `handleEnd`'s `forEach`, and none has been invoked while running. */
  predicate Inv(s: UState) {
    Distinct(s.subscribers) && Distinct(s.notified) && (s.status.Running? ==> s.notified == [])
  }

  lemma StepKeepsInv(s: UState, e: Event)
    requires Inv(s)
    ensures Inv(Step(s, e))
  {
    if e.PlaybackEnded? || e.CancelCalled? {
      if s.status.Running? {
        assert s.notified + s.subscribers == s.subscribers;
      }
    }
  }

  /** Every run from a fresh utterance keeps the invariant: in particular `forEach`
      invokes each callback at most once. */
  lemma {:induction false} RunKeepsInv(s: UState, evs: seq<Event>)
    requires Inv(s)
    ensures Inv(Run(s, evs))
    decreases |evs|
  {
    if evs != [] {
      StepKeepsInv(s, evs[0]);
      RunKeepsInv(Step(s, evs[0]), evs[1..]);
    }
  }

  /** `handleEnd`'s `forEach` invokes no callback twice. A callback that subscribes
      again after the end is queued separately, in `scheduled`. */
  lemma NotifiedAtMostOnce(evs: seq<Event>)
    ensures Distinct(Run(Initial(), evs).notified)
  {
    RunKeepsInv(Initial(), evs);
  }

  /** Once ended, an utterance stays ended with the same reason, and no later event
      invokes any callback or changes the status. */
  lemma {:induction false} EndedIsFinal(s: UState, evs: seq<Event>)
    requires s.status.Ended?
    ensures Run(s, evs).status == s.status
    ensures Run(s, evs).notified == s.notified
    ensures Transitions(s, evs) == 0
    decreases |evs|
  {
    if evs != [] {
      EndedIsFinal(Step(s, evs[0]), evs[1..]);
    }
  }

  /** From a running state there is at most one terminal transition, and there is
      one exactly when the run ends the utterance. */
  lemma {:induction false} AtMostOneTransition(s: UState, evs: seq<Event>)
    requires s.status.Running?
    ensures Transitions(s, evs) <= 1
    ensures Transitions(s, evs) == 1 <==> Run(s, evs).status.Ended?
    decreases |evs|
  {
    if evs != [] {
      var t := Step(s, evs[0]);
      if t.status.Ended? {
        EndedIsFinal(t, evs[1..]);
      } else {
        AtMostOneTransition(t, evs[1..]);
      }
    }
  }

  /** Whoever is invoked or in the set was subscribed: either before the run or by one
      of its events. */
  lemma {:induction false} OnlySubscribersNotified(s: UState, evs: seq<Event>, cb: Callback)
    requires cb in Run(s, evs).notified || cb in Run(s, evs).subscribers
    requires cb !in s.notified && cb !in s.subscribers
    ensures SubscribeCalled(cb) in evs
    decreases |evs|
  {
    if evs == [] {
    } else {
      var t := Step(s, evs[0]);
      if evs[0] != SubscribeCalled(cb) {
        assert cb !in t.notified && cb !in t.subscribers;
        OnlySubscribersNotified(t, evs[1..], cb);
        assert evs == [evs[0]] + evs[1..];
      }
    }
  }

  /** A callback removed while running, and not subscribed again, is never invoked. */
  lemma {:induction false} UnsubscribedNotNotified(s: UState, cb: Callback, evs: seq<Event>)
    requires s.status.Running? && cb in s.subscribers && cb !in s.notified
    requires SubscribeCalled(cb) !in evs
    ensures cb !in Run(OnUnsubscribe(s, Remove(cb)), evs).notified
  {
    var t := OnUnsubscribe(s, Remove(cb));
    if cb in Run(t, evs).notified {
      OnlySubscribersNotified(t, evs, cb);
    }
  }

  /** Subscribing a member of the set again changes nothing and returns the same kind
      of handle. */
  lemma SubscribeIdempotent(s: UState, cb: Callback)
    requires s.status.Running?
    ensures OnSubscribe(OnSubscribe(s, cb).0, cb) == OnSubscribe(s, cb)
  {
  }

  /** After the end, each subscribe queues its callback exactly once more and leaves
      the set and the invocations alone. */
  lemma LateSubscribeScheduled(s: UState, cb: Callback, evs: seq<Event>)
    requires s.status.Ended?
    ensures var t := Step(s, SubscribeCalled(cb));
      t.scheduled == s.scheduled + [cb] && t.subscribers == s.subscribers && t.notified == s.notified
  {
  }

  /** Two subscribers, a cancel, then playback ending and a second cancel: the
      utterance ends cancelled once, and each subscriber is invoked once. */
  lemma CancelScenario()
    ensures Run(Initial(), [SubscribeCalled(1), SubscribeCalled(2), CancelCalled, PlaybackEnded, CancelCalled])
         == UState(Ended(Cancelled, None), [1, 2], [1, 2], [], true)
  {
    var s2 := Run(Initial(), [SubscribeCalled(1), SubscribeCalled(2)]);
    assert s2 == UState(Running, [1, 2], [], [], false);
    var s3 := Step(s2, CancelCalled);
    assert s3 == UState(Ended(Cancelled, None), [1, 2], [1, 2], [], true);
    EndedIsFinal(s3, [PlaybackEnded, CancelCalled]);
  }

  // ---------------------------------------------------------------------------
  // The utterance in place

  /** The per-`speak` closure state: `status`, `subscribers`, and what the callbacks
      and the audio source have seen; `reported` is the returned object's own
      `status` field. */
  class Utterance {
    var status: Status
    var subscribers: seq<Callback>
    var notified: seq<Callback>
    var scheduled: seq<Callback>
    var stopped: bool
    const reported: Status

    function State(): UState
      reads this
    {
      UState(status, subscribers, notified, scheduled, stopped)
    }

    constructor ()
      ensures State() == Initial() && reported == Running
    {
      status := Running;
      subscribers := [];
      notified := [];
      scheduled := [];
      stopped := false;
      reported := Running;
    }

    /** `handleEnd(reason, error)`, invoking the subscribers one by one. */
    method HandleEnd(reason: Reason, error: Option<string>)
      modifies this
      ensures State() == OnEnd(old(State()), reason, error)
    {
      if status.Ended? {
        return;
      }
      status := Ended(reason, error);
      var i := 0;
      while i < |subscribers|
        invariant 0 <= i <= |subscribers|
        invariant notified == old(notified) + subscribers[..i]
        invariant status == Ended(reason, error)
        invariant subscribers == old(subscribers) && scheduled == old(scheduled) && stopped == old(stopped)
      {
        notified := notified + [subscribers[i]];
        i := i + 1;
      }
      assert subscribers[..i] == subscribers;
    }

    /** The audio source's `onended`. */
    method OnPlaybackEnded()
      modifies this
      ensures State() == Step(old(State()), PlaybackEnded)
    {
      HandleEnd(Finished, None);
    }

    /** `utterance.cancel()`. */
    method Cancel()
      modifies this
      ensures State() == Step(old(State()), CancelCalled)
    {
      stopped := true;
      HandleEnd(Cancelled, None);
    }

    /** `utterance.subscribe(cb)`. */
    method Subscribe(cb: Callback) returns (h: Handle)
      modifies this
      ensures (State(), h) == OnSubscribe(old(State()), cb)
    {
      if status.Ended? {
        scheduled := scheduled + [cb];
        return NoOp;
      }
      if cb !in subscribers {
        subscribers := subscribers + [cb];
      }
      h := Remove(cb);
    }

    /** Calling a handle returned by `subscribe`. */
    method Unsubscribe(h: Handle)
      modifies this
      ensures State() == Step(old(State()), UnsubscribeCalled(h))
    {
      if h.Remove? {
        subscribers := Delete(subscribers, h.cb);
      }
    }
  }

  // ---------------------------------------------------------------------------
  // The adapter

  /** The Web Audio context; its decoding and playback are not modelled. */
  class AudioContext {
    constructor ()
    {
    }
  }

  /** How the synthesis request went: it was rejected, or the endpoint answered with
      a status and body, and decoding the audio either failed with a message or not. */
  datatype Synthesis =
    | RequestFailed(message: string)
    | Answered(status: nat, bodyText: string, decodeError: Option<string>)

  /** The message of the error `speak` re-throws, if any: a failed request, a status
      outside 200 to 299, or a failed decode, checked in that order. */
  function SpeakError(syn: Synthesis): (r: Option<string>)
    ensures syn.RequestFailed? ==> r == Some(syn.message)
    ensures syn.Answered? && !(200 <= syn.status <= 299) ==>
      r.Some? && Includes(r.value, Decimal(syn.status)) && Includes(r.value, syn.bodyText)
    ensures syn.Answered? && 200 <= syn.status <= 299 ==> r == syn.decodeError
  {
    match syn
    case RequestFailed(m) => Some(m)
    case Answered(st, body, decodeError) =>
      if !(200 <= st <= 299) then
        var d := Decimal(st);
        var m := "Deepgram API error: " + d + " - " + body;
        IncludesMiddle("Deepgram API error: ", d, " - " + body);
        assert m == "Deepgram API error: " + d + (" - " + body);
        IncludesMiddle("Deepgram API error: " + d + " - ", body, []);
        assert m + [] == m;
        Some(m)
      else decodeError
  }

  class DeepgramAdapter {
    const apiKey: string
    var audioContext: AudioContext?

    constructor (apiKey: string)
      ensures this.apiKey == apiKey && audioContext == null
    {
      this.apiKey := apiKey;
      audioContext := null;
    }

    /** `speak(text)`: the audio context is created when there is none and reused
        otherwise; a new utterance starts running with no subscribers; on failure its
        status ends with `error` and the error is re-thrown (returned in `thrown`). */
    method Speak(text: string, synthesis: Synthesis) returns (u: Utterance, thrown: Option<string>)
      modifies this
      ensures old(audioContext) == null ==> audioContext != null && fresh(audioContext)
      ensures old(audioContext) != null ==> audioContext == old(audioContext)
      ensures fresh(u) && u.reported == Running
      ensures thrown == SpeakError(synthesis)
      ensures thrown.None? ==> u.State() == Initial()
      ensures thrown.Some? ==> u.State() == Initial().(status := Ended(Error, thrown))
    {
      if audioContext == null {
        audioContext := new AudioContext();
      }
      u := new Utterance();
      match synthesis {
        case RequestFailed(m) =>
          thrown := Some(m);
        case Answered(st, body, decodeError) =>
          if !(200 <= st <= 299) {
            thrown := Some("Deepgram API error: " + Decimal(st) + " - " + body);
          } else {
            thrown := decodeError;
          }
      }
      if thrown.Some? {
        u.HandleEnd(Error, thrown);
      }
    }
  }
}
