/** The dispatcher's two tables of one connection: open sessions and their configuration watchers. Every
    gate that a set request can use is one whose options the client was sent first.
 */
module ConfigSessions {
  import opened Wrappers
  import G = ConfigGate

  /** A session remembers whether it has a configuration runtime once that was found out. */
  datatype Session = Session(runtime: Option<bool>)

  /** How an attempt to attach the runtime would end. */
  datatype Attach = AttachFails | NoRuntime | HasRuntime

  /** `ended` is a dispatcher that has left its loop. */
  datatype Connection = Connection(sessions: map<string, Session>, watchers: map<string, G.State>, ended: bool)

  datatype Event =
    | NewSession(id: string, attach: Attach, first: G.Snapshot, written: bool)
    | LoadSession(id: string, attach: Attach, replayed: bool, drained: bool, first: G.Snapshot, written: bool)
    | CloseSession(id: string, drained: bool)
    | SetOption(id: string, attach: Attach, first: G.Snapshot)
    | GateStep(id: string, e: G.Event)

  // ---------------------------------------------------------------- one request

  /** The runtime is looked for once; only a failure is tried again. */
  function Configure(s: Session, attach: Attach): (Session, Option<bool>) {
    if s.runtime.Some? then (s, s.runtime)
    else match attach
      case AttachFails => (s, None)
      case NoRuntime => (Session(Some(false)), Some(false))
      case HasRuntime => (Session(Some(true)), Some(true))
  }

  /** The session is entered, its options are sent, and then the watcher starts. */
  function Enter(c: Connection, id: string, s: Session, watched: bool, first: G.Snapshot, written: bool): Connection {
    c.(sessions := c.sessions[id := s],
       watchers := if watched then c.watchers[id := G.Start(first, written)] else c.watchers)
  }

  function New(c: Connection, e: Event): Connection
    requires e.NewSession?
  {
    var (s, found) := Configure(Session(None), e.attach);
    if found.None? then c else Enter(c, e.id, s, found.value, e.first, e.written)
  }

  /** Without its old watcher; a watcher that cannot drain its output ends the connection. */
  function Unwatch(c: Connection, id: string, drained: bool): Connection {
    c.(watchers := c.watchers - {id}, ended := id in c.watchers && !drained)
  }

  /** Loading or resuming: an open session is reused, and nothing changes before the replay is out. */
  function Load(c: Connection, e: Event): Connection
    requires e.LoadSession?
  {
    var (s, found) := Configure(if e.id in c.sessions then c.sessions[e.id] else Session(None), e.attach);
    var c0 := if e.id in c.sessions then c.(sessions := c.sessions[e.id := s]) else c;
    if found.None? || !e.replayed then c0
    else
      var c1 := Unwatch(c0, e.id, e.drained);
      if c1.ended then c1 else Enter(c1, e.id, s, found.value, e.first, e.written)
  }

  function Close(c: Connection, e: Event): Connection
    requires e.CloseSession?
  {
    Unwatch(c.(sessions := c.sessions - {e.id}), e.id, e.drained)
  }

  /** A gate that counts its snapshot as delivered although nothing was sent. */
  function Unshown(first: G.Snapshot): G.State {
    G.State([first], 1, 0, [], G.Idle, G.Resting, G.Nobody, false)
  }

  /** A set request uses the session's gate, or prepares one when there is no watcher. */
  function Set(c: Connection, e: Event): Connection
    requires e.SetOption?
  {
    if e.id !in c.sessions then c
    else
      var (s, found) := Configure(c.sessions[e.id], e.attach);
      var c1 := c.(sessions := c.sessions[e.id := s]);
      if found == Some(true) && e.id !in c.watchers then c1.(watchers := c1.watchers[e.id := Unshown(e.first)]) else c1
  }

  predicate Enabled(c: Connection, e: Event) {
    if e.GateStep? then e.id in c.watchers && G.Enabled(c.watchers[e.id], e.e) else !c.ended
  }

  function Next(c: Connection, e: Event): Connection
    requires Enabled(c, e)
  {
    match e
    case NewSession(_, _, _, _) => New(c, e)
    case LoadSession(_, _, _, _, _, _) => Load(c, e)
    case CloseSession(_, _) => Close(c, e)
    case SetOption(_, _, _) => Set(c, e)
    case GateStep(id, step) => c.(watchers := c.watchers[id := G.Next(c.watchers[id], step)])
  }

  /** A connection begins without sessions. */
  function Start(): Connection {
    Connection(map[], map[], false)
  }

  ghost predicate Run(c: Connection, es: seq<Event>)
    decreases |es|
  {
    es == [] || (Enabled(c, es[0]) && Run(Next(c, es[0]), es[1..]))
  }

  ghost function End(c: Connection, es: seq<Event>): Connection
    requires Run(c, es)
    decreases |es|
  {
    if es == [] then c else End(Next(c, es[0]), es[1..])
  }

  // ---------------------------------------------------------------- the invariant

  /** Every open session with a runtime is watched, and every gate's client was sent options. */
  ghost predicate Inv(c: Connection) {
    && (forall id :: id in c.sessions ==> c.sessions[id].runtime.Some?)
    && (!c.ended ==> forall id :: id in c.sessions && c.sessions[id].runtime == Some(true) ==> id in c.watchers)
    && (forall id :: id in c.watchers ==> G.Inv(c.watchers[id]))
  }

  lemma EnterKeeps(c: Connection, id: string, s: Session, watched: bool, first: G.Snapshot, written: bool)
    requires Inv(c) && s.runtime == Some(watched)
    ensures Inv(Enter(c, id, s, watched, first, written))
  {
    G.StartIsGood(first, written);
    hide G.Inv, G.Start;
  }

  lemma SetKeeps(c: Connection, e: Event)
    requires Inv(c) && !c.ended && e.SetOption?
    ensures Inv(Set(c, e)) && Set(c, e).watchers == c.watchers
  {
    hide G.Inv;
  }

  lemma LoadKeeps(c: Connection, e: Event)
    requires Inv(c) && !c.ended && e.LoadSession?
    ensures Inv(Load(c, e))
  {
    hide G.Inv, G.Start;
    var (s, found) := Configure(if e.id in c.sessions then c.sessions[e.id] else Session(None), e.attach);
    G.StartIsGood(e.first, e.written);
  }

  lemma StepKeeps(c: Connection, e: Event)
    requires Inv(c) && Enabled(c, e)
    ensures Inv(Next(c, e))
  {
    hide G.Inv, G.Next, G.Start, Enter, Set, Load;
    match e
    case NewSession(id, attach, first, written) =>
      var (s, found) := Configure(Session(None), attach);
      if found.Some? { EnterKeeps(c, id, s, found.value, first, written); }
    case LoadSession(_, _, _, _, _, _) => LoadKeeps(c, e);
    case CloseSession(_, _) =>
    case SetOption(_, _, _) => SetKeeps(c, e);
    case GateStep(id, step) => G.StepKeeps(c.watchers[id], step);
  }

  lemma {:induction false} Always(c: Connection, es: seq<Event>)
    requires Inv(c) && Run(c, es)
    ensures Inv(End(c, es))
    decreases |es|
  {
    hide Inv, Next, Enabled;
    if es != [] {
      StepKeeps(c, es[0]);
      Always(Next(c, es[0]), es[1..]);
    }
  }

  // ---------------------------------------------------------------- the promises

  /** A set request never has to prepare a gate of its own: the gate that it uses is there, and its
      options were sent to the client. */
  lemma SetFindsShownGate(es: seq<Event>, e: Event)
    requires Run(Start(), es) && e.SetOption? && Enabled(End(Start(), es), e)
    ensures var c := End(Start(), es);
            && Next(c, e).watchers == c.watchers
            && (e.id in c.sessions && Configure(c.sessions[e.id], e.attach).1 == Some(true) ==>
                  e.id in c.watchers && G.ShownInv(c.watchers[e.id]))
  {
    Always(Start(), es);
    SetKeeps(End(Start(), es), e);
    hide Run, End;
  }

  /** In every reachable state of a connection, each session whose watcher has no unseen change shows
      the client the latest options, as long as the stream is open. */
  lemma EveryGateIsCurrent(es: seq<Event>, id: string)
    requires Run(Start(), es) && id in End(Start(), es).watchers
    requires G.Quiescent(End(Start(), es).watchers[id]) && !End(Start(), es).watchers[id].closed
    ensures G.Current(End(Start(), es).watchers[id])
  {
    Always(Start(), es);
    hide Run, End, G.Inv, G.Quiescent, G.Current;
    G.QuiescentGate(End(Start(), es).watchers[id]);
  }

  /** Loading or resuming. A session that is open stays as it is; one that is not is entered once its runtime
      was looked for and its history is out. Its watcher is replaced by a new one exactly if it has a
      runtime, and an old watcher that cannot drain its output ends the connection instead. */
  lemma LoadIs(c: Connection, e: Event)
    requires Inv(c) && !c.ended && e.LoadSession?
    ensures var c' := Load(c, e);
            var ready := e.replayed && (e.id in c.sessions || e.attach != AttachFails);
            var stuck := ready && e.id in c.watchers && !e.drained;
            var runtime := if e.id in c.sessions then c.sessions[e.id].runtime else Some(e.attach == HasRuntime);
            && (c'.ended <==> stuck)
            && c'.sessions == (if ready && !stuck then c.sessions[e.id := Session(runtime)] else c.sessions)
            && c'.watchers ==
               if stuck then c.watchers - {e.id}
               else if ready && runtime == Some(true) then c.watchers[e.id := G.Start(e.first, e.written)]
               else if ready then c.watchers - {e.id}
               else c.watchers
  {
    hide G.Start, G.Inv;
    var w := G.Start(e.first, e.written);
    assert (c.watchers - {e.id})[e.id := w] == c.watchers[e.id := w];
  }

  // ---------------------------------------------------------------- the dispatcher object

  class Dispatcher {
    var sessions: map<string, Session>
    var watchers: map<string, G.State>
    var ended: bool

    ghost function Abstract(): Connection
      reads this
    {
      Connection(sessions, watchers, ended)
    }

    constructor ()
      ensures Abstract() == Start() && Inv(Abstract())
    {
      sessions, watchers, ended := map[], map[], false;
    }

    method Open(id: string, attach: Attach, first: G.Snapshot, written: bool)
      requires Inv(Abstract()) && !ended
      modifies this
      ensures Abstract() == New(old(Abstract()), NewSession(id, attach, first, written)) && Inv(Abstract())
      ensures attach == AttachFails ==> sessions == old(sessions) && watchers == old(watchers)
      ensures attach != AttachFails ==> sessions == old(sessions)[id := Session(Some(attach == HasRuntime))]
      ensures attach == NoRuntime ==> watchers == old(watchers)
      ensures attach == HasRuntime ==> watchers == old(watchers)[id := G.Start(first, written)]
    {
      StepKeeps(Abstract(), NewSession(id, attach, first, written));
      hide Inv, G.Start;
      var (session, runtime) := Configure(Session(None), attach);
      if runtime == None { return; }
      sessions := sessions[id := session];
      if runtime.value { watchers := watchers[id := G.Start(first, written)]; }
    }

    method Reload(id: string, attach: Attach, replayed: bool, drained: bool, first: G.Snapshot, written: bool)
      requires Inv(Abstract()) && !ended
      modifies this
      ensures Abstract() == Load(old(Abstract()), LoadSession(id, attach, replayed, drained, first, written))
      ensures Inv(Abstract())
    {
      StepKeeps(Abstract(), LoadSession(id, attach, replayed, drained, first, written));
      hide Inv, G.Start;
      var target := if id in sessions then sessions[id] else Session(None);
      var (session, runtime) := Configure(target, attach);
      if id in sessions { sessions := sessions[id := session]; }
      if runtime == None || !replayed { return; }
      var watched := id in watchers;
      watchers := watchers - {id};
      if watched && !drained {
        ended := true;
        return;
      }
      sessions := sessions[id := session];
      if runtime.value { watchers := watchers[id := G.Start(first, written)]; }
    }

    method Stop(id: string, drained: bool)
      requires Inv(Abstract()) && !ended
      modifies this
      ensures Abstract() == Close(old(Abstract()), CloseSession(id, drained)) && Inv(Abstract())
      ensures sessions == old(sessions) - {id} && watchers == old(watchers) - {id}
      ensures ended <==> id in old(watchers) && !drained
    {
      StepKeeps(Abstract(), CloseSession(id, drained));
      hide Inv;
      sessions := sessions - {id};
      ended := id in watchers && !drained;
      watchers := watchers - {id};
    }

    method SetConfigOption(id: string, attach: Attach, first: G.Snapshot)
      requires !ended
      modifies this
      ensures Abstract() == Set(old(Abstract()), SetOption(id, attach, first))
      ensures old(Inv(Abstract())) ==> Inv(Abstract()) && watchers == old(watchers)
    {
      if Inv(Abstract()) { SetKeeps(Abstract(), SetOption(id, attach, first)); }
      hide Inv;
      if id !in sessions { return; }
      var (session, runtime) := Configure(sessions[id], attach);
      sessions := sessions[id := session];
      if runtime == Some(true) && id !in watchers {
        watchers := watchers[id := Unshown(first)];
      }
    }
  }
}
