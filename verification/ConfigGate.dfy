/** Telling the client the current configuration: a setter and a watcher share one gate, while the
    runtime publishes snapshots at any time. What the runtime is assumed to do: revisions rise
    strictly, and a setter call returns a published snapshot no older than anything that was
    published before the call.
 */
module ConfigGate {
  import opened Wrappers

  /** `options` stands for the presented configuration. */
  datatype Snapshot = Snapshot(revision: nat, options: string)

  datatype Watcher = Idle | Woken | Notifying(k: nat) | Ended

  datatype Setter = Resting | Wanting | Calling(floor: nat) | Responding(k: nat)

  datatype Holder = Nobody | ByWatcher | BySetter

  /** `seen` counts the publications that the watcher's receiver has marked as seen; `delivered` is
      the index of the recorded snapshot; `client` lists the snapshots whose options reached the
      client, in order. */
  datatype State = State(published: seq<Snapshot>, seen: nat, delivered: nat, client: seq<Snapshot>, watcher: Watcher,
                         setter: Setter, gate: Holder, closed: bool)

  datatype Event =
    | Publish(s: Snapshot)
    | Wake                          // the receiver reports a change
    | Enter                         // the watcher gets the gate and re-reads the snapshot
    | Notified(ok: bool)            // its notification is written, or the write fails
    | StopWatcher
    | Ask                           // a set request arrives
    | Call                          // the setter gets the gate and calls the runtime
    | Returned(k: nat)              // the runtime returns a published snapshot
    | Refused                       // the request or the runtime refuses
    | Responded(ok: bool)
    | CloseStream

  /** What the watcher does with a snapshot, given what was recorded. */
  datatype Offer = Skip | RecordOnly | Notify

  function Judge(s: Snapshot, recorded: Snapshot): Offer {
    if s.revision <= recorded.revision then Skip
    else if s.options != recorded.options then Notify
    else RecordOnly
  }

  predicate Enabled(s: State, e: Event) {
    && s.published != [] && s.delivered < |s.published|
    && match e
       case Publish(n) => n.revision > s.published[|s.published| - 1].revision
       case Wake => s.watcher == Idle && s.seen < |s.published|
       case Enter => s.watcher == Woken && s.gate == Nobody
       case Notified(_) => s.watcher.Notifying? && s.watcher.k < |s.published|
       case StopWatcher => s.watcher == Idle || s.watcher == Woken
       case Ask => s.setter == Resting
       case Call => s.setter == Wanting && s.gate == Nobody
       case Returned(k) => s.setter.Calling? && k < |s.published| && s.published[k].revision >= s.setter.floor
       case Refused => s.setter.Calling?
       case Responded(_) => s.setter.Responding? && s.setter.k < |s.published|
       case CloseStream => true
  }

  function Next(s: State, e: Event): State
    requires Enabled(s, e)
  {
    var last := |s.published| - 1;
    match e
    case Publish(n) => s.(published := s.published + [n])
    case Wake => s.(watcher := Woken, seen := |s.published|)
    case Enter =>
      var s1 := s.(seen := |s.published|);
      (match Judge(s.published[last], s.published[s.delivered])
       case Skip => s1.(watcher := Idle)
       case RecordOnly => s1.(watcher := Idle, delivered := last)
       case Notify => s1.(watcher := Notifying(last), gate := ByWatcher))
    case Notified(ok) =>
      if ok then
        s.(client := s.client + [s.published[s.watcher.k]], delivered := s.watcher.k, watcher := Idle, gate := Nobody)
      else s.(watcher := Ended, gate := Nobody, closed := true)
    case StopWatcher => s.(watcher := Ended)
    case Ask => s.(setter := Wanting)
    case Call => s.(setter := Calling(s.published[last].revision), gate := BySetter)
    case Returned(k) => s.(setter := Responding(k))
    case Refused => s.(setter := Resting, gate := Nobody)
    case Responded(ok) =>
      if ok then
        s.(client := s.client + [s.published[s.setter.k]], delivered := s.setter.k, setter := Resting, gate := Nobody)
      else s.(setter := Resting, gate := Nobody, closed := true)
    case CloseStream => s.(closed := true)
  }

  /** A watched session starts with the prepared snapshot recorded and sent in the response; a write
      that fails closes the stream. */
  function Start(first: Snapshot, written: bool): State {
    State([first], 1, 0, if written then [first] else [], Idle, Resting, Nobody, !written)
  }

  ghost predicate Run(s: State, es: seq<Event>)
    decreases |es|
  {
    es == [] || (Enabled(s, es[0]) && Run(Next(s, es[0]), es[1..]))
  }

  ghost function End(s: State, es: seq<Event>): State
    requires Run(s, es)
    decreases |es|
  {
    if es == [] then s else End(Next(s, es[0]), es[1..])
  }

  // ---------------------------------------------------------------- the invariant

  ghost predicate Rising(published: seq<Snapshot>) {
    forall i, j :: 0 <= i < j < |published| ==> published[i].revision < published[j].revision
  }

  ghost predicate ClientInv(s: State)
    requires s.delivered < |s.published|
  {
    && (forall i, j :: 0 <= i <= j < |s.client| ==> s.client[i].revision <= s.client[j].revision)
    && (s.client != [] ==> s.client[|s.client| - 1].revision <= s.published[s.delivered].revision
                           && s.client[|s.client| - 1].options == s.published[s.delivered].options)
  }

  ghost predicate GateInv(s: State)
    requires s.delivered < |s.published|
  {
    && (s.gate == ByWatcher <==> s.watcher.Notifying?)
    && (s.gate == BySetter <==> s.setter.Calling? || s.setter.Responding?)
    && (s.watcher.Notifying? ==> s.watcher.k < |s.published| && s.watcher.k > s.delivered && s.seen == s.watcher.k + 1)
    && (s.watcher.Notifying? ==> s.published[s.watcher.k].options != s.published[s.delivered].options)
    && (s.setter.Calling? ==> s.setter.floor >= s.published[s.delivered].revision)
    && (s.setter.Responding? ==> s.setter.k < |s.published| && s.setter.k >= s.delivered)
    && 0 < s.seen <= |s.published|
    && (s.watcher == Idle ==> s.delivered >= s.seen - 1)
  }

  /** On an open stream the client has been shown some options. */
  predicate ShownInv(s: State) {
    s.client != [] || s.closed
  }

  ghost predicate Inv(s: State) {
    s.delivered < |s.published| && Rising(s.published) && ClientInv(s) && GateInv(s) && ShownInv(s)
  }

  lemma StepKeeps(s: State, e: Event)
    requires Inv(s) && Enabled(s, e)
    ensures Inv(Next(s, e))
  {
    hide ClientInv;
    GateKept(s, e);
    ClientKept(s, e);
    ShownKept(s, e);
  }

  lemma ShownKept(s: State, e: Event)
    requires ShownInv(s) && Enabled(s, e)
    ensures ShownInv(Next(s, e))
  {
  }

  lemma GateKept(s: State, e: Event)
    requires Inv(s) && Enabled(s, e)
    ensures var s' := Next(s, e); s'.delivered < |s'.published| && Rising(s'.published) && GateInv(s')
    ensures s.delivered <= Next(s, e).delivered && s.published <= Next(s, e).published
  {
    hide ClientInv;
    if e.Publish? {
      GatePublish(s, e);
    } else {
      GateSame(s, e);
      hide GateInv, Next, Enabled;
    }
  }

  lemma GatePublish(s: State, e: Event)
    requires Inv(s) && Enabled(s, e) && e.Publish?
    ensures var s' := Next(s, e); s'.delivered < |s'.published| && Rising(s'.published) && GateInv(s')
  {
    hide ClientInv;
  }

  lemma GateSame(s: State, e: Event)
    requires Inv(s) && Enabled(s, e) && !e.Publish?
    ensures var s' := Next(s, e);
            s'.published == s.published && s.delivered <= s'.delivered < |s'.published| && GateInv(s')
  {
    hide ClientInv;
  }

  lemma ClientKept(s: State, e: Event)
    requires Inv(s) && Enabled(s, e)
    ensures Next(s, e).delivered < |Next(s, e).published| && ClientInv(Next(s, e))
  {
  }

  lemma {:induction false} Always(s: State, es: seq<Event>)
    requires Inv(s) && Run(s, es)
    ensures Inv(End(s, es)) && s.client <= End(s, es).client
    decreases |es|
  {
    hide Inv, Enabled;
    if es != [] {
      StepKeeps(s, es[0]);
      ClientGrows(s, es[0]);
      hide Next;
      Always(Next(s, es[0]), es[1..]);
    }
  }

  lemma ClientGrows(s: State, e: Event)
    requires Enabled(s, e)
    ensures s.client <= Next(s, e).client
  {
  }

  // ---------------------------------------------------------------- the promises

  lemma StartIsGood(first: Snapshot, written: bool)
    ensures Inv(Start(first, written))
  {
  }

  /** The revisions that the client sees, over the initial response, setter responses and
      notifications, never decrease. */
  lemma ClientNeverGoesBack(first: Snapshot, written: bool, es: seq<Event>)
    requires Run(Start(first, written), es)
    ensures var c := End(Start(first, written), es).client;
            forall i, j :: 0 <= i <= j < |c| ==> c[i].revision <= c[j].revision
  {
    Always(Start(first, written), es);
  }

  /** The watcher waits for changes and there is none that its receiver has not seen. */
  predicate Quiescent(s: State) {
    s.watcher == Idle && s.seen == |s.published|
  }

  /** The recorded snapshot is the latest, and the last options that the client saw are its. */
  ghost predicate Current(s: State) {
    && s.delivered == |s.published| - 1
    && s.client != [] && s.client[|s.client| - 1].options == s.published[s.delivered].options
  }

  lemma QuiescentGate(s: State)
    requires Inv(s) && Quiescent(s) && !s.closed
    ensures Current(s)
  {
  }

  /** Whenever the watcher has no unseen change and the stream is open, the recorded snapshot is the
      latest one and the last options that the client saw are exactly its options. */
  lemma QuiescentIsCurrent(first: Snapshot, written: bool, es: seq<Event>)
    requires Run(Start(first, written), es)
    requires Quiescent(End(Start(first, written), es)) && !End(Start(first, written), es).closed
    ensures Current(End(Start(first, written), es))
  {
    hide Run, End, Inv;
    StartIsGood(first, written);
    Always(Start(first, written), es);
    QuiescentGate(End(Start(first, written), es));
  }

  /** A configuration whose options did not change is recorded without a frame, and a frame whose
      write fails is not recorded. */
  lemma FramesAndRecords(s: State, e: Event)
    requires Inv(s) && Enabled(s, e)
    ensures Next(s, e).client != s.client ==>
            Next(s, e).client[|s.client|] == Next(s, e).published[Next(s, e).delivered]
    ensures e == Notified(false) || e == Responded(false) ==> Next(s, e).delivered == s.delivered && Next(s, e).closed
    ensures e == Enter && Next(s, e).delivered != s.delivered ==>
              Next(s, e).published[Next(s, e).delivered].options == s.published[s.delivered].options
  {
  }

  /** A notification always tells the client something new: its options differ from the last ones that
      the client saw. */
  lemma NotificationsAreNews(first: Snapshot, written: bool, es: seq<Event>)
    requires Run(Start(first, written), es) && Enabled(End(Start(first, written), es), Notified(true))
    ensures var s := End(Start(first, written), es);
            var s' := Next(s, Notified(true));
            && |s'.client| == |s.client| + 1
            && (s.client != [] ==> s'.client[|s.client|].options != s.client[|s.client| - 1].options)
  {
    hide Run, End;
    StartIsGood(first, written);
    Always(Start(first, written), es);
  }

  /** What the watcher makes of the latest snapshot: an old revision is skipped, a new one with the options
      of the recorded one is recorded without a frame, and a new one with other options is notified. */
  lemma EnterDecides(s: State)
    requires Enabled(s, Enter)
    ensures var s', last := Next(s, Enter), |s.published| - 1;
            var newest, recorded := s.published[last], s.published[s.delivered];
            && s'.client == s.client && s'.published == s.published && s'.setter == s.setter && s'.closed == s.closed
            && s'.seen == |s.published|
            && (newest.revision <= recorded.revision ==>
                  s'.delivered == s.delivered && s'.watcher == Idle && s'.gate == Nobody)
            && (newest.revision > recorded.revision && newest.options == recorded.options ==>
                  s'.delivered == last && s'.watcher == Idle && s'.gate == Nobody)
            && (newest.revision > recorded.revision && newest.options != recorded.options ==>
                  s'.delivered == s.delivered && s'.watcher == Notifying(last) && s'.gate == ByWatcher)
  {
  }

  /** Every frame that is written is a snapshot that the watcher notifies or the setter answers, it is
      recorded, and nothing else reaches the client. */
  lemma FramesExactly(s: State, e: Event)
    requires Inv(s) && Enabled(s, e)
    ensures Next(s, e).client ==
            s.client + (if e == Notified(true) then [s.published[s.watcher.k]]
                        else if e == Responded(true) then [s.published[s.setter.k]] else [])
    ensures e == Notified(true) ==> Next(s, e).delivered == s.watcher.k
    ensures e == Responded(true) ==> Next(s, e).delivered == s.setter.k
  {
    assert s.client + [] == s.client;
  }

  lemma RunNone(s: State)
    ensures Run(s, []) && End(s, []) == s
  {
  }

  lemma RunFirst(s: State, e: Event, rest: seq<Event>)
    requires Enabled(s, e) && Run(Next(s, e), rest)
    ensures Run(s, [e] + rest) && End(s, [e] + rest) == End(Next(s, e), rest)
  {
    hide Next, Enabled;
    assert ([e] + rest)[1..] == rest;
  }

  lemma RunThree(s: State, a: Event, b: Event, c: Event)
    requires Enabled(s, a) && Enabled(Next(s, a), b) && Enabled(Next(Next(s, a), b), c)
    ensures Run(s, [a, b, c]) && End(s, [a, b, c]) == Next(Next(Next(s, a), b), c)
  {
    hide *;
    var s1 := Next(s, a);
    var s2 := Next(s1, b);
    assert [c] + [] == [c] && [b] + [c] == [b, c] && [a] + [b, c] == [a, b, c];
    RunNone(Next(s2, c));
    RunFirst(s2, c, []);
    RunFirst(s1, b, [c]);
    RunFirst(s, a, [b, c]);
  }

  /** A set request that finds the gate free: refused, it leaves everything as it was; carried out, the
      snapshot that the runtime returned is sent, recorded, and the gate is free again. */
  lemma SetIsAnswered(s: State, k: nat)
    requires Inv(s) && s.setter == Resting && s.gate == Nobody
    ensures Run(s, [Ask, Call, Refused]) && End(s, [Ask, Call, Refused]) == s
    ensures k < |s.published| && s.published[k].revision >= s.published[|s.published| - 1].revision ==>
              var es := [Ask, Call, Returned(k)];
              && Run(s, es) && Enabled(End(s, es), Responded(true))
              && Next(End(s, es), Responded(true)) ==
                 s.(client := s.client + [s.published[k]], delivered := k)
  {
    InvShows(s);
    CallTakesGate(s);
    hide *;
    RunThree(s, Ask, Call, Refused);
    if k < |s.published| && s.published[k].revision >= s.published[|s.published| - 1].revision {
      ReturnAnswers(s, k);
      RunThree(s, Ask, Call, Returned(k));
    }
  }

  lemma CallTakesGate(s: State)
    requires s.delivered < |s.published| && s.setter == Resting && s.gate == Nobody
    ensures Enabled(s, Ask) && Enabled(Next(s, Ask), Call)
    ensures Next(Next(s, Ask), Call) ==
            s.(setter := Calling(s.published[|s.published| - 1].revision), gate := BySetter)
    ensures Enabled(Next(Next(s, Ask), Call), Refused) && Next(Next(Next(s, Ask), Call), Refused) == s
  {
  }

  lemma ReturnAnswers(s: State, k: nat)
    requires s.setter == Resting && s.gate == Nobody && s.delivered < |s.published|
    requires k < |s.published| && s.published[k].revision >= s.published[|s.published| - 1].revision
    requires Enabled(s, Ask) && Enabled(Next(s, Ask), Call)
    requires Next(Next(s, Ask), Call) ==
             s.(setter := Calling(s.published[|s.published| - 1].revision), gate := BySetter)
    ensures var s2 := Next(Next(s, Ask), Call);
            && Enabled(s2, Returned(k)) && Enabled(Next(s2, Returned(k)), Responded(true))
            && Next(Next(s2, Returned(k)), Responded(true)) ==
               s.(client := s.client + [s.published[k]], delivered := k)
  {
  }

  lemma InvShows(s: State)
    requires Inv(s)
    ensures s.delivered < |s.published|
  {
  }

  /** A change that the watcher has not seen, with the gate free: it is noticed, and if its options are new
      they are sent and recorded, and the gate is free again. */
  lemma ChangeIsShown(s: State)
    requires Inv(s) && s.watcher == Idle && s.gate == Nobody && s.seen < |s.published|
    requires var newest := s.published[|s.published| - 1];
             newest.revision > s.published[s.delivered].revision && newest.options != s.published[s.delivered].options
    ensures var es, last := [Wake, Enter, Notified(true)], |s.published| - 1;
            && Run(s, es)
            && End(s, es) == s.(seen := |s.published|, client := s.client + [s.published[last]], delivered := last)
  {
    RunThree(s, Wake, Enter, Notified(true));
    hide Run, End, Inv;
  }

  /** How many of the events are set requests that were answered. */
  function Answered(es: seq<Event>): nat {
    if es == [] then 0 else (if es[0] == Responded(true) then 1 else 0) + Answered(es[1..])
  }

  lemma EndedStays(s: State, e: Event)
    requires Inv(s) && Enabled(s, e) && s.watcher == Ended
    ensures Next(s, e).watcher == Ended
    ensures |Next(s, e).client| == |s.client| + if e == Responded(true) then 1 else 0
  {
  }

  /** Once the watcher is stopped no notification is ever sent; only set requests are still answered. */
  lemma {:induction false} StoppedForGood(s: State, es: seq<Event>)
    requires Inv(s) && s.watcher == Ended && Run(s, es)
    ensures End(s, es).watcher == Ended && |End(s, es).client| == |s.client| + Answered(es)
    decreases |es|
  {
    hide Inv, Next, Enabled;
    if es != [] {
      StepKeeps(s, es[0]);
      EndedStays(s, es[0]);
      StoppedForGood(Next(s, es[0]), es[1..]);
    }
  }

  lemma StopEnds(s: State, es: seq<Event>)
    requires Inv(s) && Enabled(s, StopWatcher) && Run(Next(s, StopWatcher), es)
    ensures |End(Next(s, StopWatcher), es).client| == |s.client| + Answered(es)
  {
    hide Inv, Run, End, Answered;
    StepKeeps(s, StopWatcher);
    StoppedForGood(Next(s, StopWatcher), es);
  }

  /** The stream closes only when somebody closes it or a write of the gate fails. */
  lemma StreamCloses(s: State, e: Event)
    requires Enabled(s, e)
    ensures Next(s, e).closed <==> s.closed || e == CloseStream || e == Notified(false) || e == Responded(false)
  {
  }

  // ---------------------------------------------------------------- the projection object

  class Projection {
    var revision: nat
    var options: string

    constructor (first: Snapshot)
      ensures revision == first.revision && options == first.options
    {
      revision, options := first.revision, first.options;
    }

    method Record(s: Snapshot)
      modifies this
      ensures Snapshot(revision, options) == s
    {
      revision := s.revision;
      options := s.options;
    }

    /** One pass of the watcher while it holds the gate; `written` is how the write would end. */
    method Forward(s: Snapshot, written: bool) returns (frame: Option<string>, alive: bool)
      modifies this
      ensures var recorded := old(Snapshot(revision, options));
              match Judge(s, recorded)
              case Skip => frame == None && alive && Snapshot(revision, options) == recorded
              case RecordOnly => frame == None && alive && Snapshot(revision, options) == s
              case Notify =>
                && frame == Some(s.options) && alive == written
                && Snapshot(revision, options) == if written then s else recorded
    {
      if s.revision <= revision { return None, true; }
      frame := None;
      if s.options != options {
        frame := Some(s.options);
        if !written { return frame, false; }
      }
      Record(s);
      alive := true;
    }
  }
}
