/** Live subscriptions: a registry that the dispatcher and the subscription tasks change under
    races between cancel, finish and a new subscription to the same id. The dispatcher handles one
    client request at a time; tasks and closes interleave with it at every step.
 */
module Subscriptions {
  import opened Wrappers

  const MAX_SUBSCRIPTIONS := 16

  type Token = nat

  // ---------------------------------------------------------------- the registry

  /** `entries` holds the token of the task that serves a subscription id. `pending` maps a request
      key to the subscription id it asked for; the owner is the task that was started for it. */
  datatype Pending = Pending(id: string, owner: Token)

  datatype Registry = Registry(entries: map<string, Token>, pending: map<string, Pending>, next: Token)

  predicate CanAdmit(r: Registry, id: string) {
    |r.entries| < MAX_SUBSCRIPTIONS && id !in r.entries
  }

  function Admit(r: Registry, id: string): Registry {
    r.(entries := r.entries[id := r.next], next := r.next + 1)
  }

  function Enlist(r: Registry, key: string, id: string, t: Token): Registry {
    r.(pending := r.pending[key := Pending(id, t)])
  }

  function Unlist(r: Registry, key: string): Registry {
    r.(pending := r.pending - {key})
  }

  function TakeEntry(r: Registry, id: string): Registry {
    r.(entries := r.entries - {id})
  }

  /** Only the entry with this token goes away. */
  function FinishEntry(r: Registry, id: string, t: Token): Registry {
    if id in r.entries && r.entries[id] == t then TakeEntry(r, id) else r
  }

  // ---------------------------------------------------------------- tasks and the dispatcher

  datatype Kind = Snapshot | Update | Failure

  datatype Phase =
    | Unborn                  // entry made, task not yet spawned
    | Fetching                // waits for the subscription or its cancellation
    | Unlisting(ok: Option<bool>)
    | Deciding(ok: Option<bool>)
    | Wanting(kind: Kind)     // in line for the output
    | Writing(kind: Kind)     // its frame has begun
    | Streaming
    | Finishing
    | Ending
    | Over

  datatype Sub = Sub(key: string, id: string, phase: Phase, cancelled: bool)

  datatype Dispatcher = Ready | Inserted(t: Token) | Doomed(id: string, owner: Option<Token>) | Waiting(t: Token)

  datatype Begun = Begun(t: Token, kind: Kind)

  /** `log` lists the frames that began, `returned` the tasks whose cancellation has returned, `fetched`
      how the session answered each task. */
  datatype State = State(reg: Registry, tasks: map<Token, Sub>, dispatcher: Dispatcher, closed: bool, log: seq<Begun>,
                         returned: set<Token>, fetched: map<Token, bool>)

  datatype Event =
    | Subscribe(key: string, id: string)
    | Spawn
    | CancelRequest(key: string)
    | Unsubscribe(id: string)
    | Take                            // the dispatcher removes the entry and signals the task
    | SeeDone                         // the task reports that it is done
    | GiveUp                          // it does not within the time limit: close the stream
    | Fetched(t: Token, ok: bool)
    | SeeCancel(t: Token)
    | Unlists(t: Token)
    | Decide(t: Token)
    | Begin(t: Token)
    | EndFrame(t: Token, ok: bool)
    | NextItem(t: Token)
    | StopStream(t: Token)
    | Finish(t: Token)
    | ReportDone(t: Token)
    | CloseStream

  predicate In(s: State, t: Token, p: Phase) {
    t in s.tasks && s.tasks[t].phase == p
  }

  predicate Enabled(s: State, e: Event) {
    match e
    case Subscribe(key, id) =>
      s.dispatcher == Ready && key !in s.reg.pending && CanAdmit(s.reg, id) && s.reg.next !in s.tasks
    case Spawn => s.dispatcher.Inserted? && In(s, s.dispatcher.t, Unborn)
    case CancelRequest(key) => s.dispatcher == Ready && key in s.reg.pending
    case Unsubscribe(_) => s.dispatcher == Ready
    case Take =>
      s.dispatcher.Doomed? && (s.dispatcher.id in s.reg.entries ==> s.reg.entries[s.dispatcher.id] in s.tasks)
    case SeeDone => s.dispatcher.Waiting? && In(s, s.dispatcher.t, Over)
    case GiveUp => s.dispatcher.Waiting?
    case Fetched(t, _) => In(s, t, Fetching)
    case SeeCancel(t) => In(s, t, Fetching) && s.tasks[t].cancelled
    case Unlists(t) => t in s.tasks && s.tasks[t].phase.Unlisting?
    case Decide(t) => t in s.tasks && s.tasks[t].phase.Deciding?
    case Begin(t) => t in s.tasks && s.tasks[t].phase.Wanting?
    case EndFrame(t, _) => t in s.tasks && s.tasks[t].phase.Writing?
    case NextItem(t) => In(s, t, Streaming)
    case StopStream(t) => In(s, t, Streaming)
    case Finish(t) => In(s, t, Finishing)
    case ReportDone(t) => In(s, t, Ending)
    case CloseStream => true
  }

  function Moved(s: State, t: Token, p: Phase): map<Token, Sub>
    requires t in s.tasks
  {
    s.tasks[t := s.tasks[t].(phase := p)]
  }

  /** After the write of a frame, whether it went out or not. */
  function AfterFrame(kind: Kind, closed: bool): Phase {
    match kind
    case Snapshot => Streaming
    case Update => if closed then Finishing else Streaming
    case Failure => Finishing
  }

  function Next(s: State, e: Event): State
    requires Enabled(s, e)
  {
    match e
    case Subscribe(key, id) =>
      s.(reg := Admit(s.reg, id), tasks := s.tasks[s.reg.next := Sub(key, id, Unborn, false)],
         dispatcher := Inserted(s.reg.next))
    case Spawn =>
      var t := s.dispatcher.t;
      s.(reg := Enlist(s.reg, s.tasks[t].key, s.tasks[t].id, t), tasks := Moved(s, t, Fetching), dispatcher := Ready)
    case CancelRequest(key) =>
      s.(reg := Unlist(s.reg, key), dispatcher := Doomed(s.reg.pending[key].id, Some(s.reg.pending[key].owner)))
    case Unsubscribe(id) => s.(dispatcher := Doomed(id, None))
    case Take =>
      var id := s.dispatcher.id;
      if id !in s.reg.entries then s.(dispatcher := Ready)
      else
        var t := s.reg.entries[id];
        s.(reg := TakeEntry(s.reg, id), tasks := s.tasks[t := s.tasks[t].(cancelled := true)], dispatcher := Waiting(t))
    case SeeDone => s.(dispatcher := Ready, returned := s.returned + {s.dispatcher.t})
    case GiveUp => s.(dispatcher := Ready, returned := s.returned + {s.dispatcher.t}, closed := true)
    case Fetched(t, ok) => s.(tasks := Moved(s, t, Unlisting(Some(ok))), fetched := s.fetched[t := ok])
    case SeeCancel(t) => s.(tasks := Moved(s, t, Unlisting(None)))
    case Unlists(t) => s.(reg := Unlist(s.reg, s.tasks[t].key), tasks := Moved(s, t, Deciding(s.tasks[t].phase.ok)))
    case Decide(t) =>
      var ok := s.tasks[t].phase.ok;
      var p := if ok.None? || s.tasks[t].cancelled || s.closed then Finishing
               else if ok.value then Wanting(Snapshot) else Wanting(Failure);
      s.(tasks := Moved(s, t, p))
    case Begin(t) =>
      var kind := s.tasks[t].phase.kind;
      if s.closed then s.(tasks := Moved(s, t, AfterFrame(kind, true)))
      else s.(tasks := Moved(s, t, Writing(kind)), log := s.log + [Begun(t, kind)])
    case EndFrame(t, ok) =>
      s.(tasks := Moved(s, t, AfterFrame(s.tasks[t].phase.kind, s.closed || !ok)), closed := s.closed || !ok)
    case NextItem(t) => s.(tasks := Moved(s, t, Wanting(Update)))
    case StopStream(t) => s.(tasks := Moved(s, t, Finishing))
    case Finish(t) => s.(reg := FinishEntry(s.reg, s.tasks[t].id, t), tasks := Moved(s, t, Ending))
    case ReportDone(t) => s.(tasks := Moved(s, t, Over))
    case CloseStream => s.(closed := true)
  }

  function Start(): State {
    State(Registry(map[], map[], 0), map[], Ready, false, [], {}, map[])
  }

  ghost predicate Run(s: State, es: seq<Event>)
    decreases |es|
  {
    es == [] || (Enabled(s, es[0]) && Run(Next(s, es[0]), es[1..]))
  }

  ghost function End(s: State, es: seq<Event>): State
    requires Run(s, es)
    decreases |es|
  {
    if es == [] then s else End(Next(s, es[0]), es[1..])
  }

  // ---------------------------------------------------------------- entries

  predicate Gone(p: Phase) {
    p == Ending || p == Over
  }

  ghost predicate EntryInv(s: State) {
    && |s.reg.entries| <= MAX_SUBSCRIPTIONS
    && (forall t :: t in s.tasks ==> t < s.reg.next)
    && (forall id :: id in s.reg.entries ==>
          var t := s.reg.entries[id];
          t in s.tasks && s.tasks[t].id == id && !Gone(s.tasks[t].phase) && !s.tasks[t].cancelled)
  }

  /** While the stream is open, a task that is not gone has its entry or is being waited for. */
  ghost predicate HeldInv(s: State) {
    !s.closed ==>
      (forall t :: t in s.tasks && !Gone(s.tasks[t].phase) ==>
         (s.tasks[t].id in s.reg.entries && s.reg.entries[s.tasks[t].id] == t) || s.dispatcher == Waiting(t))
  }

  ghost predicate DispatcherInv(s: State) {
    match s.dispatcher
    case Ready => true
    case Inserted(t) => In(s, t, Unborn) && (!s.closed ==> s.tasks[t].key !in s.reg.pending)
    case Doomed(id, owner) => !s.closed && owner.Some? && id in s.reg.entries ==> s.reg.entries[id] == owner.value
    case Waiting(t) => t in s.tasks
  }

  /** While the stream is open, a pending request is one whose task has not unlisted it yet. */
  ghost predicate PendingInv(s: State) {
    && (!s.closed ==> forall key :: key in s.reg.pending ==>
          var p := s.reg.pending[key];
          && p.owner in s.tasks && s.tasks[p.owner].key == key && s.tasks[p.owner].id == p.id
          && (s.tasks[p.owner].phase == Fetching || s.tasks[p.owner].phase.Unlisting?))
    && (forall t :: t in s.tasks && s.tasks[t].phase == Unborn ==> s.dispatcher == Inserted(t))
  }

  /** An id has at most one task that may still write, and each key too. */
  ghost predicate Inv(s: State) {
    EntryInv(s) && HeldInv(s) && DispatcherInv(s) && PendingInv(s)
  }

  lemma StartIsGood()
    ensures Inv(Start()) && LogInv(Start())
  {
  }

  lemma FewerEntries(m: map<string, Token>, id: string)
    ensures |m - {id}| <= |m|
  {
    assert (m - {id}).Keys == m.Keys - {id};
    assert |m - {id}| == |(m - {id}).Keys| && |m| == |m.Keys|;
  }

  lemma MoreEntries(m: map<string, Token>, id: string, t: Token)
    ensures |m[id := t]| <= |m| + 1
  {
    assert m[id := t].Keys == m.Keys + {id};
    assert |m[id := t]| == |m[id := t].Keys| && |m| == |m.Keys|;
  }

  /** An event of the dispatcher, or a close; the others are events of one task. */
  predicate ByDispatcher(e: Event) {
    e.Subscribe? || e.Spawn? || e.CancelRequest? || e.Unsubscribe? || e.Take? || e.SeeDone? || e.GiveUp? ||
    e.CloseStream?
  }

  /** What an event of a task does to the task and to the registry. */
  lemma TaskEvent(s: State, e: Event)
    requires Enabled(s, e) && !ByDispatcher(e)
    ensures var s' := Next(s, e);
            && e.t in s.tasks && s'.tasks == s.tasks[e.t := s.tasks[e.t].(phase := s'.tasks[e.t].phase)]
            && s'.dispatcher == s.dispatcher && (s.closed ==> s'.closed) && s'.reg.next == s.reg.next
            && s.tasks[e.t].phase != Unborn && s'.tasks[e.t].phase != Unborn
            && s'.reg.entries == (if e.Finish? then FinishEntry(s.reg, s.tasks[e.t].id, e.t).entries else s.reg.entries)
            && s'.reg.pending == (if e.Unlists? then s.reg.pending - {s.tasks[e.t].key} else s.reg.pending)
            && (Gone(s'.tasks[e.t].phase) <==> Gone(s.tasks[e.t].phase) || e.Finish?)
            && (s.tasks[e.t].phase == Fetching || s.tasks[e.t].phase.Unlisting? ==>
                  s'.tasks[e.t].phase.Unlisting? || e.Unlists?)
            && (e.Unlists? ==> s.tasks[e.t].phase.Unlisting?)
  {
    hide EntryInv;
  }

  lemma EntryKept(s: State, e: Event)
    requires Enabled(s, e) && EntryInv(s)
    ensures EntryInv(Next(s, e))
  {
    hide Next, Enabled, Inv, EntryInv, HeldInv, DispatcherInv, PendingInv, In, Gone, FinishEntry;
    if !ByDispatcher(e) {
      TaskEvent(s, e);
      EntryTask(s, Next(s, e), e.t, e.Finish?);
    } else if e.Subscribe? {
      EntrySubscribe(s, e);
    } else if e.Take? {
      EntryTake(s, e);
    } else {
      EntryDispatcher(s, e);
    }
  }

  lemma EntryTask(s: State, s': State, t: Token, finish: bool)
    requires EntryInv(s) && t in s.tasks && t in s'.tasks &&
             s'.tasks == s.tasks[t := s.tasks[t].(phase := s'.tasks[t].phase)]
    requires s'.reg.next == s.reg.next && (Gone(s'.tasks[t].phase) <==> Gone(s.tasks[t].phase) || finish)
    requires s'.reg.entries == if finish then FinishEntry(s.reg, s.tasks[t].id, t).entries else s.reg.entries
    ensures EntryInv(s')
  {
    hide Gone;
    FewerEntries(s.reg.entries, s.tasks[t].id);
    forall id | id in s'.reg.entries
      ensures var u := s'.reg.entries[id];
              u in s'.tasks && s'.tasks[u].id == id && !Gone(s'.tasks[u].phase) && !s'.tasks[u].cancelled
    {
      assert id in s.reg.entries && s'.reg.entries[id] == s.reg.entries[id];
      assert finish ==> s.reg.entries[id] != t;
    }
  }

  lemma EntrySubscribe(s: State, e: Event)
    requires Enabled(s, e) && EntryInv(s) && e.Subscribe?
    ensures EntryInv(Next(s, e))
  {
    MoreEntries(s.reg.entries, e.id, s.reg.next);
  }

  lemma EntryTake(s: State, e: Event)
    requires Enabled(s, e) && EntryInv(s) && e.Take?
    ensures EntryInv(Next(s, e))
  {
    hide Gone;
    if s.dispatcher.id in s.reg.entries {
      var t := s.reg.entries[s.dispatcher.id];
      FewerEntries(s.reg.entries, s.dispatcher.id);
      EntryTaken(s, t, Next(s, e));
    }
  }

  lemma EntryTaken(s: State, t: Token, s': State)
    requires EntryInv(s) && s.dispatcher.Doomed? && s.dispatcher.id in s.reg.entries
    requires t == s.reg.entries[s.dispatcher.id] && |s.reg.entries - {s.dispatcher.id}| <= |s.reg.entries|
    requires s'.reg.entries == s.reg.entries - {s.dispatcher.id} && s'.reg.next == s.reg.next
    requires s'.tasks == s.tasks[t := s.tasks[t].(cancelled := true)]
    ensures EntryInv(s')
  {
    hide Gone;
    forall id | id in s'.reg.entries
      ensures var u := s'.reg.entries[id];
              u in s'.tasks && s'.tasks[u].id == id && !Gone(s'.tasks[u].phase) && !s'.tasks[u].cancelled
    {
      assert s'.reg.entries[id] == s.reg.entries[id];
    }
  }

  lemma EntryDispatcher(s: State, e: Event)
    requires Enabled(s, e) && EntryInv(s) && ByDispatcher(e) && !e.Subscribe? && !e.Take?
    ensures EntryInv(Next(s, e))
  {
  }

  lemma HeldKept(s: State, e: Event)
    requires Enabled(s, e) && Inv(s)
    ensures HeldInv(Next(s, e))
  {
    hide Next, Enabled, Inv, EntryInv, HeldInv, DispatcherInv, PendingInv, In, Gone, FinishEntry;
    if !ByDispatcher(e) {
      TaskEvent(s, e);
      HeldTask(s, Next(s, e), e.t, e.Finish?);
    } else {
      HeldDispatcher(s, e);
    }
  }

  lemma HeldTask(s: State, s': State, t: Token, finish: bool)
    requires Inv(s) && t in s.tasks && t in s'.tasks &&
             s'.tasks == s.tasks[t := s.tasks[t].(phase := s'.tasks[t].phase)]
    requires s'.dispatcher == s.dispatcher && (s.closed ==> s'.closed)
    requires Gone(s'.tasks[t].phase) <==> Gone(s.tasks[t].phase) || finish
    requires s'.reg.entries == if finish then FinishEntry(s.reg, s.tasks[t].id, t).entries else s.reg.entries
    ensures HeldInv(s')
  {
    hide Gone, EntryInv, DispatcherInv, PendingInv;
  }

  lemma HeldDispatcher(s: State, e: Event)
    requires Enabled(s, e) && Inv(s) && ByDispatcher(e)
    ensures HeldInv(Next(s, e))
  {
    hide PendingInv;
  }

  lemma DispatcherKept(s: State, e: Event)
    requires Enabled(s, e) && Inv(s)
    ensures DispatcherInv(Next(s, e))
  {
    hide Next, Enabled, Inv, EntryInv, HeldInv, DispatcherInv, PendingInv, In, Gone, FinishEntry;
    if !ByDispatcher(e) {
      TaskEvent(s, e);
      DispatcherTask(s, Next(s, e), e.t, e.Finish?);
    } else {
      DispatcherOwn(s, e);
    }
  }

  lemma DispatcherTask(s: State, s': State, t: Token, finish: bool)
    requires Inv(s) && t in s.tasks && t in s'.tasks &&
             s'.tasks == s.tasks[t := s.tasks[t].(phase := s'.tasks[t].phase)]
    requires s'.dispatcher == s.dispatcher && (s.closed ==> s'.closed) && s.tasks[t].phase != Unborn
    requires s'.reg.entries == if finish then FinishEntry(s.reg, s.tasks[t].id, t).entries else s.reg.entries
    requires s'.reg.pending.Keys <= s.reg.pending.Keys
    ensures DispatcherInv(s')
  {
    hide Gone, EntryInv, HeldInv, PendingInv;
  }

  lemma DispatcherOwn(s: State, e: Event)
    requires Enabled(s, e) && Inv(s) && ByDispatcher(e)
    ensures DispatcherInv(Next(s, e))
  {
    if e.CancelRequest? && !s.closed { CancelFindsOwn(s, e.key); }
    hide HeldInv, PendingInv;
  }

  /** The entry of a pending request's id is that request's own, while the stream is open. */
  lemma CancelFindsOwn(s: State, key: string)
    requires Inv(s) && key in s.reg.pending && !s.closed && s.dispatcher == Ready
    ensures s.reg.pending[key].id in s.reg.entries && s.reg.entries[s.reg.pending[key].id] == s.reg.pending[key].owner
  {
    assert !Gone(s.tasks[s.reg.pending[key].owner].phase);
  }

  lemma PendingKept(s: State, e: Event)
    requires Enabled(s, e) && Inv(s)
    ensures PendingInv(Next(s, e))
  {
    hide Next, Enabled, Inv, EntryInv, HeldInv, DispatcherInv, PendingInv, In, Gone, FinishEntry;
    if !ByDispatcher(e) {
      TaskEvent(s, e);
      PendingTask(s, e);
    } else if e.Spawn? {
      PendingSpawn(s, e);
    } else {
      PendingDispatcher(s, e);
    }
  }

  lemma PendingTask(s: State, e: Event)
    requires Enabled(s, e) && Inv(s) && !ByDispatcher(e)
    ensures PendingInv(Next(s, e))
  {
    TaskEvent(s, e);
    hide Next, Enabled, Gone, EntryInv, HeldInv, DispatcherInv;
  }

  lemma PendingSpawn(s: State, e: Event)
    requires Enabled(s, e) && Inv(s) && e.Spawn?
    ensures PendingInv(Next(s, e))
  {
    hide EntryInv, HeldInv, Gone;
  }

  lemma PendingDispatcher(s: State, e: Event)
    requires Enabled(s, e) && Inv(s) && ByDispatcher(e) && !e.Spawn?
    ensures PendingInv(Next(s, e))
  {
    hide HeldInv, Gone, DispatcherInv;
  }

  lemma StepKeeps(s: State, e: Event)
    requires Enabled(s, e) && Inv(s)
    ensures Inv(Next(s, e))
  {
    hide Next, Enabled, EntryInv, HeldInv, DispatcherInv, PendingInv;
    EntryKept(s, e);
    HeldKept(s, e);
    DispatcherKept(s, e);
    PendingKept(s, e);
  }

  // ---------------------------------------------------------------- frames

  /** A snapshot of that task has begun. */
  ghost predicate Shown(log: seq<Begun>, t: Token) {
    Begun(t, Snapshot) in log
  }

  /** What a phase says about the task's frames so far. */
  predicate PhaseOk(p: Phase, shown: bool, closed: bool) {
    match p
    case Streaming => closed || shown
    case Wanting(kind) => if kind == Update then closed || shown else !shown
    case Writing(kind) => kind != Failure ==> shown
    case Unborn => !shown
    case Fetching => !shown
    case Unlisting(_) => !shown
    case Deciding(_) => !shown
    case _ => true
  }

  /** Every update follows a snapshot of its own task, of which there is only one. */
  ghost predicate Ordered(log: seq<Begun>) {
    && (forall k :: 0 <= k < |log| && log[k].kind == Update ==> Shown(log[..k], log[k].t))
    && (forall j, k :: 0 <= j < k < |log| && log[j].kind == Snapshot && log[k].kind == Snapshot ==>
          log[j].t != log[k].t)
  }

  ghost predicate LogInv(s: State) {
    && Ordered(s.log)
    && (forall t :: t in s.tasks ==> PhaseOk(s.tasks[t].phase, Shown(s.log, t), s.closed))
    && (forall b :: b in s.log ==> b.t in s.tasks)
  }

  lemma OrderedMore(log: seq<Begun>, b: Begun)
    requires Ordered(log) && (b.kind == Update ==> Shown(log, b.t)) && (b.kind == Snapshot ==> !Shown(log, b.t))
    ensures Ordered(log + [b])
    ensures forall t :: Shown(log + [b], t) <==> Shown(log, t) || b == Begun(t, Snapshot)
  {
    var l := log + [b];
    forall k | 0 <= k < |l| && l[k].kind == Update ensures Shown(l[..k], l[k].t) {
      assert l[..k] == if k < |log| then log[..k] else log;
    }
    forall j, k | 0 <= j < k < |l| && l[j].kind == Snapshot && l[k].kind == Snapshot ensures l[j].t != l[k].t {
      if k == |log| { assert log[j] in log; }
    }
  }

  lemma LogSame(s: State, e: Event)
    requires Enabled(s, e) && LogInv(s) && !(e.Begin? && !s.closed)
    ensures Next(s, e).log == s.log && (s.closed ==> Next(s, e).closed) && s.tasks.Keys <= Next(s, e).tasks.Keys
    ensures forall t :: t in Next(s, e).tasks ==> PhaseOk(Next(s, e).tasks[t].phase, Shown(s.log, t), Next(s, e).closed)
  {
    hide Ordered, Shown;
    if ByDispatcher(e) {
      LogDispatcher(s, e);
    } else {
      LogTask(s, e);
      TaskEvent(s, e);
      hide Next, Enabled;
      forall t | t in Next(s, e).tasks ensures PhaseOk(Next(s, e).tasks[t].phase, Shown(s.log, t), Next(s, e).closed) {
        assert t != e.t ==> Next(s, e).tasks[t] == s.tasks[t];
      }
    }
  }

  lemma LogTask(s: State, e: Event)
    requires Enabled(s, e) && !ByDispatcher(e) && !(e.Begin? && !s.closed)
    requires PhaseOk(s.tasks[e.t].phase, Shown(s.log, e.t), s.closed)
    ensures PhaseOk(Next(s, e).tasks[e.t].phase, Shown(s.log, e.t), Next(s, e).closed)
    ensures Next(s, e).log == s.log && (s.closed ==> Next(s, e).closed)
  {
    hide Shown;
  }

  lemma LogDispatcher(s: State, e: Event)
    requires Enabled(s, e) && LogInv(s) && ByDispatcher(e)
    ensures Next(s, e).log == s.log && (s.closed ==> Next(s, e).closed) && s.tasks.Keys <= Next(s, e).tasks.Keys
    ensures forall t :: t in Next(s, e).tasks ==> PhaseOk(Next(s, e).tasks[t].phase, Shown(s.log, t), Next(s, e).closed)
  {
    hide Ordered;
    if e.Subscribe? { NeverShown(s); }
    hide Shown;
  }

  lemma NeverShown(s: State)
    requires LogInv(s) && s.reg.next !in s.tasks
    ensures !Shown(s.log, s.reg.next)
  {
    hide Ordered, PhaseOk;
  }

  lemma LogKept(s: State, e: Event)
    requires Enabled(s, e) && LogInv(s)
    ensures LogInv(Next(s, e))
  {
    hide Ordered, Enabled, PhaseOk, Shown, Next;
    if e.Begin? && !s.closed {
      LogBegin(s, e);
    } else {
      LogSame(s, e);
    }
  }

  lemma LogBegin(s: State, e: Event)
    requires Enabled(s, e) && LogInv(s) && e.Begin? && !s.closed
    ensures LogInv(Next(s, e))
  {
    hide Ordered, Shown;
    var b := Begun(e.t, s.tasks[e.t].phase.kind);
    OrderedMore(s.log, b);
  }

  // ---------------------------------------------------------------- the promises

  lemma {:induction false} Always(s: State, es: seq<Event>)
    requires Inv(s) && LogInv(s) && Run(s, es)
    ensures Inv(End(s, es)) && LogInv(End(s, es))
    decreases |es|
  {
    hide Inv, LogInv, Next, Enabled;
    if es != [] {
      StepKeeps(s, es[0]);
      LogKept(s, es[0]);
      Always(Next(s, es[0]), es[1..]);
    }
  }

  /** At most 16 subscriptions live, each entry belongs to one unfinished task of its own id, and each
      task's snapshot comes before all its updates, in every reachable state. */
  lemma SubscriptionsAlways(es: seq<Event>)
    requires Run(Start(), es)
    ensures var s := End(Start(), es);
            && |s.reg.entries| <= MAX_SUBSCRIPTIONS
            && (forall id :: id in s.reg.entries ==>
                  s.reg.entries[id] in s.tasks && s.tasks[s.reg.entries[id]].id == id &&
                  !Gone(s.tasks[s.reg.entries[id]].phase))
            && Ordered(s.log)
  {
    StartIsGood();
    Always(Start(), es);
    hide Run, End, Ordered, Gone;
  }

  /** A finishing task removes its own entry and no other, also when its id was subscribed again in
      the meantime. */
  lemma FinishRemovesOwn(s: State, t: Token, id: string)
    requires Inv(s) && Enabled(s, Finish(t)) && id in s.reg.entries
    ensures var s' := Next(s, Finish(t));
            id in s'.reg.entries <==> s.reg.entries[id] != t
    ensures id in Next(s, Finish(t)).reg.entries ==> Next(s, Finish(t)).reg.entries[id] == s.reg.entries[id]
  {
    hide HeldInv, DispatcherInv, PendingInv;
  }

  /** While the dispatcher waits for the entries lock, any other task may run. */
  predicate BeforeTake(es: seq<Event>) {
    forall k :: 0 <= k < |es| ==> es[k] != Take
  }

  lemma {:induction false} DoomStays(s: State, es: seq<Event>)
    requires Inv(s) && Run(s, es) && BeforeTake(es) && s.dispatcher.Doomed?
    ensures Inv(End(s, es)) && End(s, es).dispatcher == s.dispatcher && (!End(s, es).closed ==> !s.closed)
    ensures s.tasks.Keys <= End(s, es).tasks.Keys
    ensures forall t :: t in s.tasks ==>
              End(s, es).tasks[t].key == s.tasks[t].key && End(s, es).tasks[t].id == s.tasks[t].id
    decreases |es|
  {
    if es != [] {
      StepKeeps(s, es[0]);
      DoomStep(s, es[0]);
      hide Inv, Next, Enabled;
      assert forall k :: 0 <= k < |es[1..]| ==> es[1..][k] == es[k + 1];
      DoomStays(Next(s, es[0]), es[1..]);
    }
  }

  lemma DoomStep(s: State, e: Event)
    requires Enabled(s, e) && e != Take && s.dispatcher.Doomed?
    ensures var s' := Next(s, e);
            && s'.dispatcher == s.dispatcher && (s.closed ==> s'.closed) && s.tasks.Keys <= s'.tasks.Keys
            && forall t :: t in s.tasks ==> s'.tasks[t].key == s.tasks[t].key && s'.tasks[t].id == s.tasks[t].id
  {
  }

  lemma DoomedOwner(s: State, id: string, owner: Token)
    requires Inv(s) && !s.closed && s.dispatcher == Doomed(id, Some(owner)) && owner in s.tasks &&
             s.tasks[owner].id == id
    ensures Enabled(s, Take)
    ensures Next(s, Take).dispatcher == Waiting(owner) ||
            (Next(s, Take).dispatcher == Ready && Gone(s.tasks[owner].phase))
  {
    hide Gone, PendingInv;
  }

  /** On an open stream cancelling a request cancels the subscription that this very request started:
      whatever runs between the unlisting and the removal of the entry, the task signalled is the one
      started for the key, or that task is gone and nothing is removed. */
  lemma CancelHitsOwn(es: seq<Event>, key: string, more: seq<Event>)
    requires Run(Start(), es) && Enabled(End(Start(), es), CancelRequest(key))
    requires Run(Next(End(Start(), es), CancelRequest(key)), more) && BeforeTake(more)
    requires !End(Next(End(Start(), es), CancelRequest(key)), more).closed
    ensures var s := End(Start(), es);
            var owner := s.reg.pending[key].owner;
            var s' := End(Next(s, CancelRequest(key)), more);
            && owner in s'.tasks && s'.tasks[owner].key == key && Enabled(s', Take)
            && (Next(s', Take).dispatcher == Waiting(owner) ||
                (Next(s', Take).dispatcher == Ready && Gone(s'.tasks[owner].phase)))
  {
    hide *;
    StartIsGood();
    Always(Start(), es);
    var s := End(Start(), es);
    var s1 := Next(s, CancelRequest(key));
    StepKeeps(s, CancelRequest(key));
    CancelDooms(s, key);
    DoomStays(s1, more);
    DoomedOwner(End(s1, more), s.reg.pending[key].id, s.reg.pending[key].owner);
  }

  lemma CancelDooms(s: State, key: string)
    requires Inv(s) && Enabled(s, CancelRequest(key))
    ensures key in s.reg.pending
    ensures var s1 := Next(s, CancelRequest(key));
            var p := s.reg.pending[key];
            && s1.dispatcher == Doomed(p.id, Some(p.owner)) && s1.closed == s.closed && s1.tasks == s.tasks
            && (!s.closed ==> p.owner in s.tasks && s.tasks[p.owner].key == key && s.tasks[p.owner].id == p.id)
  {
    hide HeldInv, EntryInv;
  }

  /** A cancel that finds no entry finds no task of that id that could still write. */
  lemma NothingToCancel(s: State, t: Token)
    requires Inv(s) && !s.closed && s.dispatcher.Doomed? && s.dispatcher.id !in s.reg.entries
    requires t in s.tasks && s.tasks[t].id == s.dispatcher.id
    ensures Gone(s.tasks[t].phase)
  {
    hide Gone, PendingInv, EntryInv;
  }

  /** A task whose cancellation has returned is over, or the stream is closed. */
  ghost predicate ReturnedInv(s: State) {
    forall t :: t in s.returned ==> s.closed || In(s, t, Over)
  }

  lemma ReturnedKept(s: State, e: Event)
    requires Enabled(s, e) && ReturnedInv(s)
    ensures ReturnedInv(Next(s, e))
  {
  }

  /** How many frames of the task have begun. */
  function FramesOf(log: seq<Begun>, t: Token): nat {
    if log == [] then 0 else FramesOf(log[..|log| - 1], t) + if log[|log| - 1].t == t then 1 else 0
  }

  lemma FramesMore(log: seq<Begun>, b: Begun, t: Token)
    ensures FramesOf(log + [b], t) == FramesOf(log, t) + if b.t == t then 1 else 0
  {
    assert (log + [b])[..|log|] == log;
  }

  lemma QuietTask(s: State, e: Event, t: Token)
    requires Enabled(s, e) && (s.closed || In(s, t, Over))
    ensures FramesOf(Next(s, e).log, t) == FramesOf(s.log, t)
    ensures Next(s, e).closed || In(Next(s, e), t, Over)
  {
    if e.Begin? && !s.closed { FramesMore(s.log, Begun(e.t, s.tasks[e.t].phase.kind), t); }
    hide FramesOf;
  }

  lemma {:induction false} QuietForGood(s: State, es: seq<Event>, t: Token)
    requires Run(s, es) && (s.closed || In(s, t, Over))
    ensures FramesOf(End(s, es).log, t) == FramesOf(s.log, t)
    decreases |es|
  {
    hide Next, Enabled, FramesOf, In;
    if es != [] {
      QuietTask(s, es[0], t);
      QuietForGood(Next(s, es[0]), es[1..], t);
    }
  }

  lemma {:induction false} ReturnedAlways(s: State, es: seq<Event>)
    requires ReturnedInv(s) && Run(s, es)
    ensures ReturnedInv(End(s, es))
    decreases |es|
  {
    hide Next, Enabled, ReturnedInv;
    if es != [] {
      ReturnedKept(s, es[0]);
      ReturnedAlways(Next(s, es[0]), es[1..]);
    }
  }

  /** After a cancellation has returned, no new frame of its subscription begins, ever. */
  lemma NoFrameAfterCancel(es: seq<Event>, more: seq<Event>, t: Token)
    requires Run(Start(), es) && Run(End(Start(), es), more) && t in End(Start(), es).returned
    ensures FramesOf(End(End(Start(), es), more).log, t) == FramesOf(End(Start(), es).log, t)
  {
    NobodyReturned();
    ReturnedAlways(Start(), es);
    QuietForGood(End(Start(), es), more, t);
    hide Run, End, FramesOf, In;
  }

  lemma NobodyReturned()
    ensures ReturnedInv(Start())
  {
  }

  // ---------------------------------------------------------------- what the client is told

  /** A frame of this kind tells how the session answered. */
  predicate Tells(kind: Kind, answer: bool) {
    if kind == Failure then !answer else answer
  }

  ghost predicate Told(fetched: map<Token, bool>, t: Token, kind: Kind) {
    t in fetched && Tells(kind, fetched[t])
  }

  /** What a phase of a task says about its answer. */
  ghost predicate PhaseTells(p: Phase, fetched: map<Token, bool>, t: Token) {
    match p
    case Unborn => t !in fetched
    case Fetching => t !in fetched
    case Unlisting(ok) => ok.Some? ==> t in fetched && fetched[t] == ok.value
    case Deciding(ok) => ok.Some? ==> t in fetched && fetched[t] == ok.value
    case Wanting(kind) => Told(fetched, t, kind)
    case Writing(kind) => Told(fetched, t, kind)
    case Streaming => Told(fetched, t, Update)
    case _ => true
  }

  ghost predicate ToldInv(s: State) {
    && (forall t :: t in s.tasks ==> PhaseTells(s.tasks[t].phase, s.fetched, t))
    && (forall t :: t in s.fetched ==> t in s.tasks)
    && (forall k :: 0 <= k < |s.log| ==> Told(s.fetched, s.log[k].t, s.log[k].kind))
  }

  lemma ToldKept(s: State, e: Event)
    requires Enabled(s, e) && ToldInv(s)
    ensures ToldInv(Next(s, e))
  {
    if ByDispatcher(e) {
      hide Told;
    } else {
      TaskTells(s, e);
      TaskEvent(s, e);
      LogTells(s, e);
      FetchedOnce(s, e);
      hide Next, Enabled, Gone, PhaseTells, Told;
      forall t | t in Next(s, e).tasks ensures PhaseTells(Next(s, e).tasks[t].phase, Next(s, e).fetched, t) {
        if t != e.t {
          OthersTell(s, Next(s, e), e.t, t);
        }
      }
    }
  }

  lemma FetchedOnce(s: State, e: Event)
    requires Enabled(s, e) && !ByDispatcher(e)
    ensures Next(s, e).fetched == if e.Fetched? then s.fetched[e.t := e.ok] else s.fetched
  {
  }

  lemma OthersTell(s: State, s': State, u: Token, t: Token)
    requires t in s.tasks && t in s'.tasks && t != u && s'.tasks[t] == s.tasks[t]
    requires PhaseTells(s.tasks[t].phase, s.fetched, t)
    requires s'.fetched == s.fetched || s'.fetched == s.fetched[u := true] || s'.fetched == s.fetched[u := false]
    ensures PhaseTells(s'.tasks[t].phase, s'.fetched, t)
  {
  }

  lemma TaskTells(s: State, e: Event)
    requires Enabled(s, e) && !ByDispatcher(e) && PhaseTells(s.tasks[e.t].phase, s.fetched, e.t)
    ensures PhaseTells(Next(s, e).tasks[e.t].phase, Next(s, e).fetched, e.t)
  {
  }

  lemma LogTells(s: State, e: Event)
    requires Enabled(s, e) && !ByDispatcher(e) && ToldInv(s)
    ensures var s' := Next(s, e); forall k :: 0 <= k < |s'.log| ==> Told(s'.fetched, s'.log[k].t, s'.log[k].kind)
  {
    if e.Fetched? {
      assert e.t !in s.fetched;
    }
  }

  lemma {:induction false} ToldAlways(s: State, es: seq<Event>)
    requires ToldInv(s) && Run(s, es)
    ensures ToldInv(End(s, es))
    decreases |es|
  {
    hide Next, Enabled, ToldInv;
    if es != [] {
      ToldKept(s, es[0]);
      ToldAlways(Next(s, es[0]), es[1..]);
    }
  }

  /** In every reachable state a snapshot or an update began only for a task whose subscription the session
      granted, and an error only for one that it refused. */
  lemma AnswersAreTold(es: seq<Event>, k: nat)
    requires Run(Start(), es) && k < |End(Start(), es).log|
    ensures var s := End(Start(), es);
            s.log[k].t in s.fetched && (s.log[k].kind == Failure <==> !s.fetched[s.log[k].t])
  {
    assert ToldInv(Start());
    ToldAlways(Start(), es);
    hide Run, End, Start;
  }

  /** On an open stream the answer to a task that nobody cancelled goes out: a snapshot if the session
      granted the subscription, and an error if it refused. */
  lemma AnswerGoesOut(s: State, t: Token, ok: bool)
    requires In(s, t, Fetching) && !s.closed && !s.tasks[t].cancelled
    ensures var es := [Fetched(t, ok), Unlists(t), Decide(t), Begin(t)];
            && Run(s, es)
            && End(s, es).log == s.log + [Begun(t, if ok then Snapshot else Failure)]
            && In(End(s, es), t, Writing(if ok then Snapshot else Failure))
  {
    var s1 := Next(s, Fetched(t, ok));
    var s2 := Next(s1, Unlists(t));
    var s3 := Next(s2, Decide(t));
    var s4 := Next(s3, Begin(t));
    assert s3.tasks[t].phase == Wanting(if ok then Snapshot else Failure);
    hide Next, Enabled;
    RunFour(s, Fetched(t, ok), Unlists(t), Decide(t), Begin(t));
  }

  /** On an open stream a snapshot that went out is followed by the updates: each item of the subscription
      becomes one frame, and the task streams on. */
  lemma UpdatesGoOut(s: State, t: Token)
    requires !s.closed
    ensures In(s, t, Writing(Snapshot)) ==>
              Enabled(s, EndFrame(t, true)) && In(Next(s, EndFrame(t, true)), t, Streaming)
              && !Next(s, EndFrame(t, true)).closed
    ensures In(s, t, Streaming) ==>
              var es := [NextItem(t), Begin(t), EndFrame(t, true)];
              && Run(s, es) && In(End(s, es), t, Streaming) && !End(s, es).closed
              && End(s, es).log == s.log + [Begun(t, Update)]
  {
    if In(s, t, Streaming) {
      var s1 := Next(s, NextItem(t));
      var s2 := Next(s1, Begin(t));
      var s3 := Next(s2, EndFrame(t, true));
      hide Next, Enabled;
      RunThree(s, NextItem(t), Begin(t), EndFrame(t, true));
    }
  }

  /** A task that was cancelled before its answer came goes to its end without a frame, and takes its request
      out of the list. */
  lemma CancelledEnds(s: State, t: Token)
    requires In(s, t, Fetching) && s.tasks[t].cancelled && s.dispatcher == Waiting(t)
    ensures var es := [SeeCancel(t), Unlists(t), Decide(t)];
            && Run(s, es) && In(End(s, es), t, Finishing) && End(s, es).log == s.log
            && End(s, es).dispatcher == Waiting(t) && s.tasks[t].key !in End(s, es).reg.pending
  {
    var s1 := Next(s, SeeCancel(t));
    var s2 := Next(s1, Unlists(t));
    var s3 := Next(s2, Decide(t));
    hide Next, Enabled;
    RunThree(s, SeeCancel(t), Unlists(t), Decide(t));
  }

  /** A task that is about to finish gives its entry back and reports; the cancellation that waited for it
      returns. */
  lemma FinishedReturns(s: State, t: Token)
    requires In(s, t, Finishing) && s.dispatcher == Waiting(t)
    ensures var es := [Finish(t), ReportDone(t), SeeDone];
            && Run(s, es) && In(End(s, es), t, Over) && End(s, es).log == s.log
            && End(s, es).returned == s.returned + {t} && End(s, es).dispatcher == Ready
            && !(s.tasks[t].id in End(s, es).reg.entries && End(s, es).reg.entries[s.tasks[t].id] == t)
  {
    var s1 := Next(s, Finish(t));
    var s2 := Next(s1, ReportDone(t));
    var s3 := Next(s2, SeeDone);
    hide Next, Enabled;
    RunThree(s, Finish(t), ReportDone(t), SeeDone);
  }

  /** An unsubscription takes the live entry of its id out and signals the task that serves it; without an
      entry it is over at once. */
  lemma UnsubscribeTakes(s: State, id: string)
    requires Inv(s) && s.dispatcher == Ready
    ensures Run(s, [Unsubscribe(id), Take])
    ensures id in s.reg.entries ==>
              var s', t := End(s, [Unsubscribe(id), Take]), s.reg.entries[id];
              && s'.reg == s.reg.(entries := s.reg.entries - {id}) && s'.dispatcher == Waiting(t)
              && t in s'.tasks && s'.tasks[t] == s.tasks[t].(cancelled := true)
    ensures id !in s.reg.entries ==> End(s, [Unsubscribe(id), Take]) == s
  {
    hide HeldInv, PendingInv;
    var s1 := Next(s, Unsubscribe(id));
    assert Enabled(s1, Take);
    RunNone(Next(s1, Take));
    assert [Take] + [] == [Take] && [Unsubscribe(id)] + [Take] == [Unsubscribe(id), Take];
    RunFirst(s1, Take, []);
    RunFirst(s, Unsubscribe(id), [Take]);
    hide Run, End;
  }

  /** A task that learns of its cancellation, or of the closed stream, before it decides says nothing. */
  lemma CancelledSaysNothing(s: State, t: Token)
    requires t in s.tasks && s.tasks[t].phase.Deciding? && (s.tasks[t].cancelled || s.closed)
    ensures Enabled(s, Decide(t)) && In(Next(s, Decide(t)), t, Finishing) && Next(s, Decide(t)).log == s.log
  {
  }

  /** A cancellation returns when its task reports that it is done, or gives up after closing the stream. */
  lemma ReturnsExactly(s: State, e: Event)
    requires Enabled(s, e)
    ensures Next(s, e).returned == s.returned + if e.SeeDone? || e.GiveUp? then {s.dispatcher.t} else {}
    ensures Next(s, e).closed <==> s.closed || e.GiveUp? || e.CloseStream? || (e.EndFrame? && !e.ok)
  {
  }

  lemma RunThree(s: State, a: Event, b: Event, c: Event)
    requires Enabled(s, a) && Enabled(Next(s, a), b) && Enabled(Next(Next(s, a), b), c)
    ensures Run(s, [a, b, c]) && End(s, [a, b, c]) == Next(Next(Next(s, a), b), c)
  {
    hide *;
    var s1 := Next(s, a);
    var s2 := Next(s1, b);
    assert [c] + [] == [c] && [b] + [c] == [b, c] && [a] + [b, c] == [a, b, c];
    RunNone(Next(s2, c));
    RunFirst(s2, c, []);
    RunFirst(s1, b, [c]);
    RunFirst(s, a, [b, c]);
  }

  lemma RunFour(s: State, a: Event, b: Event, c: Event, d: Event)
    requires Enabled(s, a) && Enabled(Next(s, a), b) && Enabled(Next(Next(s, a), b), c)
    requires Enabled(Next(Next(Next(s, a), b), c), d)
    ensures Run(s, [a, b, c, d]) && End(s, [a, b, c, d]) == Next(Next(Next(Next(s, a), b), c), d)
  {
    hide *;
    var s1 := Next(s, a);
    var s2 := Next(s1, b);
    var s3 := Next(s2, c);
    assert [d] + [] == [d] && [c] + [d] == [c, d] && [b] + [c, d] == [b, c, d] && [a] + [b, c, d] == [a, b, c, d];
    RunNone(Next(s3, d));
    RunFirst(s3, d, []);
    RunFirst(s2, c, [d]);
    RunFirst(s1, b, [c, d]);
    RunFirst(s, a, [b, c, d]);
  }

  lemma RunNone(s: State)
    ensures Run(s, []) && End(s, []) == s
  {
  }

  lemma RunFirst(s: State, e: Event, rest: seq<Event>)
    requires Enabled(s, e) && Run(Next(s, e), rest)
    ensures Run(s, [e] + rest) && End(s, [e] + rest) == End(Next(s, e), rest)
  {
    hide Next, Enabled;
    assert ([e] + rest)[1..] == rest;
  }

  // ---------------------------------------------------------------- the registry object

  class SubscriptionRegistry {
    var entries: map<string, Token>
    var pending: map<string, Pending>
    var nextToken: Token

    ghost function Abstract(): Registry
      reads this
    {
      Registry(entries, pending, nextToken)
    }

    constructor ()
      ensures Abstract() == Registry(map[], map[], 0)
    {
      entries, pending, nextToken := map[], map[], 0;
    }

    /** The part of a start that holds the entries lock. */
    method Insert(id: string) returns (token: Option<Token>)
      modifies this
      ensures token.Some? <==> CanAdmit(old(Abstract()), id)
      ensures token.Some? <==> |old(entries)| < 16 && id !in old(entries)
      ensures entries == if token.Some? then old(entries)[id := token.value] else old(entries)
      ensures token.Some? ==> token.value == old(nextToken) && Abstract() == Admit(old(Abstract()), id)
      ensures token.None? ==> Abstract() == old(Abstract()).(next := nextToken) && nextToken == old(nextToken) + 1
    {
      var t := nextToken;
      nextToken := nextToken + 1;
      if |entries| >= 16 { return None; }
      if id in entries { return None; }
      entries := entries[id := t];
      return Some(t);
    }

    method List(key: string, id: string, t: Token)
      modifies `pending
      ensures Abstract() == Enlist(old(Abstract()), key, id, t)
    {
      pending := pending[key := Pending(id, t)];
    }

    method TakePending(key: string) returns (p: Option<Pending>)
      modifies `pending
      ensures Abstract() == Unlist(old(Abstract()), key)
      ensures p == if key in old(pending) then Some(old(pending)[key]) else None
    {
      p := if key in pending then Some(pending[key]) else None;
      pending := pending - {key};
    }

    method RemoveEntry(id: string) returns (t: Option<Token>)
      modifies `entries
      ensures Abstract() == TakeEntry(old(Abstract()), id)
      ensures t == if id in old(entries) then Some(old(entries)[id]) else None
    {
      t := if id in entries then Some(entries[id]) else None;
      entries := entries - {id};
    }

    method FinishTask(id: string, t: Token)
      modifies `entries
      ensures Abstract() == FinishEntry(old(Abstract()), id, t)
    {
      if id in entries && entries[id] == t {
        entries := entries - {id};
      }
    }
  }
}
