/** A session's status lines: what is written for each call, whatever writes fail,
    and what a watcher reading the lines can count on. */
module StatusLines {
  import opened Wrappers

  datatype Event =
    | Started
    | Connected
    | Disconnected(reason: string)
    | Exited(code: int, reason: string)
    | Other(kind: string)

  /** What happens outside: a line written, or a failure reported. */
  datatype Entry = Line(event: Event) | Diagnostic

  datatype Call =
    | NoteStarted
    | NoteConnected
    | NoteDisconnected(reason: string)
    | NoteExited(code: int, reason: string)
    | NoteOther(kind: string)
    | Close

  /** `attempts` numbers the writes tried, so that any of them may fail. */
  datatype State = State(enabled: bool, failureReported: bool, connected: bool, exited: bool, closed: bool,
                         attempts: nat, log: seq<Entry>) {
    predicate Accepting() {
      enabled && !closed && !exited
    }
  }

  /** Which writes succeed. */
  type Plan = nat -> bool

  function Fresh(enabled: bool): State {
    State(enabled, false, false, false, false, 0, [])
  }

  /** One line tried, and whether it was written; a failure is reported unless
      the last one already was. */
  function TryWrite(plan: Plan, s: State, e: Event): (State, bool) {
    var tried := s.(attempts := s.attempts + 1);
    if plan(s.attempts) then (tried.(failureReported := false, log := s.log + [Line(e)]), true)
    else if s.failureReported then (tried, false)
    else (tried.(failureReported := true, log := s.log + [Diagnostic]), false)
  }

  /** A connection left open is closed first; false when that line failed. */
  function CloseFirst(plan: Plan, s: State, reason: string): (State, bool) {
    if !s.connected then (s, true)
    else
      var (t, written) := TryWrite(plan, s, Disconnected(reason));
      (if written then t.(connected := false) else t, written)
  }

  function Handle(plan: Plan, s: State, c: Call): State {
    if c.Close? then s.(closed := true)
    else if !s.Accepting() then s
    else
      match c
      case NoteStarted => TryWrite(plan, s, Started).0
      case NoteOther(kind) => TryWrite(plan, s, Other(kind)).0
      case NoteConnected =>
        var (t, ready) := CloseFirst(plan, s, "reconnect");
        if !ready then t
        else
          var (u, written) := TryWrite(plan, t, Connected);
          if written then u.(connected := true) else u
      case NoteDisconnected(reason) =>
        var (t, written) := TryWrite(plan, s, Disconnected(reason));
        if written then t.(connected := false) else t
      case NoteExited(code, reason) =>
        var (t, ready) := CloseFirst(plan, s, "process-exit");
        if !ready then t
        else
          var (u, written) := TryWrite(plan, t, Exited(code, reason));
          if written then u.(exited := true) else u
  }

  function HandleAll(plan: Plan, s: State, calls: seq<Call>): State
    decreases |calls|
  {
    if calls == [] then s else HandleAll(plan, Handle(plan, s, calls[0]), calls[1..])
  }

  // ---- The writer as it runs --------------------------------------------------------

  /** The sink: whether each write succeeds is up to the outside. */
  class StatusWriter {
    const plan: Plan
    const enabled: bool
    var failureReported: bool
    var connected: bool
    var exited: bool
    var closed: bool
    var attempts: nat
    var log: seq<Entry>

    ghost function View(): State
      reads this
    {
      State(enabled, failureReported, connected, exited, closed, attempts, log)
    }

    constructor (plan: Plan, enabled: bool)
      ensures View() == Fresh(enabled) && this.plan == plan
    {
      this.plan, this.enabled := plan, enabled;
      failureReported, connected, exited, closed, attempts, log := false, false, false, false, 0, [];
    }

    predicate Accepting()
      reads this
    {
      enabled && !closed && !exited
    }

    method Try(e: Event) returns (written: bool)
      modifies this
      ensures (View(), written) == TryWrite(plan, old(View()), e)
    {
      written := plan(attempts);
      attempts := attempts + 1;
      if written {
        failureReported := false;
        log := log + [Line(e)];
      } else if !failureReported {
        failureReported := true;
        log := log + [Diagnostic];
      }
    }

    method Write(e: Event)
      modifies this
      ensures View() == if old(View()).Accepting() then TryWrite(plan, old(View()), e).0 else old(View())
    {
      if Accepting() {
        var written := Try(e);
      }
    }

    method ConnectionMade()
      modifies this
      ensures View() == Handle(plan, old(View()), NoteConnected)
    {
      if !Accepting() {
        return;
      }
      if connected {
        var ended := Try(Disconnected("reconnect"));
        if !ended {
          return;
        }
        connected := false;
      }
      var written := Try(Connected);
      if written {
        connected := true;
      }
    }

    method ConnectionEnded(reason: string)
      modifies this
      ensures View() == Handle(plan, old(View()), NoteDisconnected(reason))
    {
      if !Accepting() {
        return;
      }
      var written := Try(Disconnected(reason));
      if written {
        connected := false;
      }
    }

    method SessionEnded(code: int, reason: string)
      modifies this
      ensures View() == Handle(plan, old(View()), NoteExited(code, reason))
    {
      if !Accepting() {
        return;
      }
      if connected {
        var ended := Try(Disconnected("process-exit"));
        if !ended {
          return;
        }
        connected := false;
      }
      var written := Try(Exited(code, reason));
      if written {
        exited := true;
      }
    }

    method LetGo()
      modifies this
      ensures View() == Handle(plan, old(View()), Close)
    {
      if closed {
        return;
      }
      closed := true;
    }

    /** Any of the calls. */
    method Receive(c: Call)
      modifies this
      ensures View() == Handle(plan, old(View()), c)
    {
      match c
      case NoteStarted => Write(Started);
      case NoteOther(kind) => Write(Other(kind));
      case NoteConnected => ConnectionMade();
      case NoteDisconnected(reason) => ConnectionEnded(reason);
      case NoteExited(code, reason) => SessionEnded(code, reason);
      case Close => LetGo();
    }
  }

  // ---- What a watcher can count on ------------------------------------------------------

  predicate IsConnect(e: Entry) {
    e.Line? && e.event.Connected?
  }

  predicate IsDisconnect(e: Entry) {
    e.Line? && e.event.Disconnected?
  }

  predicate IsExit(e: Entry) {
    e.Line? && e.event.Exited?
  }

  /** A disconnect lies between two places. */
  predicate EndedBetween(log: seq<Entry>, i: nat, j: nat)
    requires j <= |log|
  {
    exists k :: i < k < j && IsDisconnect(log[k])
  }

  predicate LineBetween(log: seq<Entry>, i: nat, j: nat)
    requires j <= |log|
  {
    exists k :: i < k < j && log[k].Line?
  }

  /** After a connect comes a disconnect before the next connect, and before the
      exit. */
  ghost predicate ConnectsEnd(log: seq<Entry>) {
    forall i: nat, j: nat {:trigger EndedBetween(log, i, j)}
      | i < j < |log| && IsConnect(log[i]) && (IsConnect(log[j]) || IsExit(log[j])) :: EndedBetween(log, i, j)
  }

  /** An exit is written once, and nothing is written after it. */
  predicate ExitIsLast(log: seq<Entry>) {
    forall i, j | 0 <= i < j < |log| && IsExit(log[i]) :: !log[j].Line?
  }

  /** Between two failures reported something was written. */
  ghost predicate ReportsAreSpaced(log: seq<Entry>) {
    forall i: nat, j: nat {:trigger LineBetween(log, i, j)}
      | i < j < |log| && log[i].Diagnostic? && log[j].Diagnostic? :: LineBetween(log, i, j)
  }

  /** The writer's flags say what the lines say. */
  ghost predicate Tells(s: State) {
    && (!s.connected ==> forall i: nat {:trigger EndedBetween(s.log, i, |s.log|)} | i < |s.log| && IsConnect(s.log[i]) ::
          EndedBetween(s.log, i, |s.log|))
    && (!s.exited ==> forall i | 0 <= i < |s.log| :: !IsExit(s.log[i]))
    && (s.exited ==> !s.connected)
    && (!s.failureReported ==> forall i: nat {:trigger LineBetween(s.log, i, |s.log|)} | i < |s.log| && s.log[i].Diagnostic? ::
          LineBetween(s.log, i, |s.log|))
  }

  ghost predicate Sound(s: State) {
    ConnectsEnd(s.log) && ExitIsLast(s.log) && ReportsAreSpaced(s.log) && Tells(s)
  }

  lemma EndedStays(log: seq<Entry>, e: Entry, i: nat, j: nat)
    requires j <= |log| && EndedBetween(log, i, j)
    ensures EndedBetween(log + [e], i, j) && EndedBetween(log + [e], i, |log| + 1)
  {
    var k :| i < k < j && IsDisconnect(log[k]);
    assert IsDisconnect((log + [e])[k]);
  }

  lemma LineStays(log: seq<Entry>, e: Entry, i: nat, j: nat)
    requires j <= |log| && LineBetween(log, i, j)
    ensures LineBetween(log + [e], i, j) && LineBetween(log + [e], i, |log| + 1)
  {
    var k :| i < k < j && log[k].Line?;
    assert (log + [e])[k].Line?;
  }

  lemma LineAppended(s: State, e: Event, t: State)
    requires Sound(s) && !s.exited
    requires e.Connected? || e.Exited? ==> !s.connected
    requires t.log == s.log + [Line(e)] && !t.failureReported
    requires t.connected == (if e.Connected? then true else if e.Disconnected? then false else s.connected)
    requires t.exited == e.Exited?
    ensures Sound(t)
  {
    var n := |s.log|;
    forall i: nat, j: nat | i < j <= n && IsConnect(t.log[i]) && (IsConnect(t.log[j]) || IsExit(t.log[j]))
      ensures EndedBetween(t.log, i, j)
    {
      assert EndedBetween(s.log, i, j);
      EndedStays(s.log, Line(e), i, j);
    }
    forall i: nat, j: nat | i < j <= n && t.log[i].Diagnostic? && t.log[j].Diagnostic? ensures LineBetween(t.log, i, j) {
      assert LineBetween(s.log, i, j);
      LineStays(s.log, Line(e), i, j);
    }
    assert t.log[n] == Line(e);
    forall i: nat | i <= n && t.log[i].Diagnostic? ensures LineBetween(t.log, i, n + 1) {
      assert t.log[n].Line?;
    }
    if !t.connected {
      forall i: nat | i <= n && IsConnect(t.log[i]) ensures EndedBetween(t.log, i, n + 1) {
        if e.Disconnected? {
          assert IsDisconnect(t.log[n]);
        } else {
          assert EndedBetween(s.log, i, n);
          EndedStays(s.log, Line(e), i, n);
        }
      }
    }
  }

  lemma DiagnosticAppended(s: State, t: State)
    requires Sound(s) && !s.failureReported && t.failureReported
    requires t.log == s.log + [Diagnostic] && t.connected == s.connected && t.exited == s.exited
    ensures Sound(t)
  {
    var n := |s.log|;
    forall i: nat, j: nat | i < j <= n && IsConnect(t.log[i]) && (IsConnect(t.log[j]) || IsExit(t.log[j]))
      ensures EndedBetween(t.log, i, j)
    {
      assert EndedBetween(s.log, i, j);
      EndedStays(s.log, Diagnostic, i, j);
    }
    forall i: nat, j: nat | i < j <= n && t.log[i].Diagnostic? && t.log[j].Diagnostic? ensures LineBetween(t.log, i, j) {
      assert LineBetween(s.log, i, j);
      LineStays(s.log, Diagnostic, i, j);
    }
    if !t.connected {
      forall i: nat | i <= n && IsConnect(t.log[i]) ensures EndedBetween(t.log, i, n + 1) {
        assert EndedBetween(s.log, i, n);
        EndedStays(s.log, Diagnostic, i, n);
      }
    }
  }

  lemma TryIsSound(plan: Plan, s: State, e: Event)
    requires Sound(s) && !s.exited && (e.Connected? || e.Exited? ==> !s.connected)
    ensures
      var (t, written) := TryWrite(plan, s, e);
      Sound(if !written then t
            else if e.Connected? then t.(connected := true)
            else if e.Disconnected? then t.(connected := false)
            else if e.Exited? then t.(exited := true)
            else t)
  {
    var (t, written) := TryWrite(plan, s, e);
    if written {
      var after := if e.Connected? then t.(connected := true) else if e.Disconnected? then t.(connected := false)
        else if e.Exited? then t.(exited := true) else t;
      LineAppended(s, e, after);
    } else if !s.failureReported {
      DiagnosticAppended(s, t);
    }
  }

  lemma HandleIsSound(plan: Plan, s: State, c: Call)
    requires Sound(s)
    ensures Sound(Handle(plan, s, c))
  {
    if !c.Close? && s.Accepting() {
      match c
      case NoteStarted => TryIsSound(plan, s, Started);
      case NoteOther(kind) => TryIsSound(plan, s, Other(kind));
      case NoteDisconnected(reason) => TryIsSound(plan, s, Disconnected(reason));
      case NoteConnected =>
        CloseFirstIsSound(plan, s, "reconnect");
        var (t, ready) := CloseFirst(plan, s, "reconnect");
        if ready {
          TryIsSound(plan, t, Connected);
        }
      case NoteExited(code, reason) =>
        CloseFirstIsSound(plan, s, "process-exit");
        var (t, ready) := CloseFirst(plan, s, "process-exit");
        if ready {
          TryIsSound(plan, t, Exited(code, reason));
        }
    }
  }

  lemma CloseFirstIsSound(plan: Plan, s: State, reason: string)
    requires Sound(s) && !s.exited
    ensures
      var (t, ready) := CloseFirst(plan, s, reason);
      Sound(t) && !t.exited && (ready ==> !t.connected)
  {
    if s.connected {
      TryIsSound(plan, s, Disconnected(reason));
    }
  }

  /** For every sequence of calls and every pattern of failing writes: connects
      are ended before the next connect and before the exit, the exit is the one
      last line, and reported failures have a written line between them. */
  lemma {:induction false} EveryLogIsSound(plan: Plan, s: State, calls: seq<Call>)
    requires Sound(s)
    ensures Sound(HandleAll(plan, s, calls))
    decreases |calls|
  {
    if calls != [] {
      HandleIsSound(plan, s, calls[0]);
      EveryLogIsSound(plan, Handle(plan, s, calls[0]), calls[1..]);
    }
  }

  lemma FreshIsSound(enabled: bool)
    ensures Sound(Fresh(enabled))
  {
  }

  /** After it is closed, or has written the exit, the writer does nothing more. */
  lemma {:induction false} NothingAfterTheEnd(plan: Plan, s: State, calls: seq<Call>)
    requires s.closed || s.exited || !s.enabled
    ensures HandleAll(plan, s, calls).log == s.log && HandleAll(plan, s, calls).attempts == s.attempts
    decreases |calls|
  {
    if calls != [] {
      NothingAfterTheEnd(plan, Handle(plan, s, calls[0]), calls[1..]);
    }
  }

  // ---- What is written when every write works -----------------------------------------

  /** The line of its own a call adds while calls are accepted, after one that closes a
      connection left open. */
  function LinesOf(s: State, c: Call): seq<Entry> {
    if !s.enabled || s.closed || s.exited then []
    else
      match c
      case NoteStarted => [Line(Started)]
      case NoteOther(kind) => [Line(Other(kind))]
      case NoteConnected => (if s.connected then [Line(Disconnected("reconnect"))] else []) + [Line(Connected)]
      case NoteDisconnected(reason) => [Line(Disconnected(reason))]
      case NoteExited(code, reason) =>
        (if s.connected then [Line(Disconnected("process-exit"))] else []) + [Line(Exited(code, reason))]
      case Close => []
  }

  ghost predicate NoneFails(plan: Plan) {
    forall n {:trigger plan(n)} :: plan(n)
  }

  /** With no failing write each call adds exactly its lines, and what is known after it
      is what it said: connected from a connection to a disconnection, exited and closed
      for good. */
  lemma EveryCallIsWritten(plan: Plan, s: State, c: Call)
    requires NoneFails(plan)
    ensures
      var (t, heard) := (Handle(plan, s, c), s.enabled && !s.closed && !s.exited);
      && t.log == s.log + LinesOf(s, c) && t.enabled == s.enabled
      && (t.closed <==> s.closed || c.Close?) && (t.exited <==> s.exited || (heard && c.NoteExited?))
      && (t.connected <==>
            if heard && c.NoteConnected? then true
            else if heard && (c.NoteDisconnected? || c.NoteExited?) then false
            else s.connected)
  {
    assert plan(s.attempts) && plan(s.attempts + 1);
  }

  /** The lines of a run of calls. */
  function AllLines(s: State, calls: seq<Call>): seq<Entry>
    decreases |calls|
  {
    if calls == [] then [] else LinesOf(s, calls[0]) + AllLines(Heard(s, calls[0]), calls[1..])
  }

  /** What is known after a call. */
  function Heard(s: State, c: Call): State {
    var heard := s.enabled && !s.closed && !s.exited;
    s.(closed := s.closed || c.Close?, exited := s.exited || (heard && c.NoteExited?),
       connected := if heard && c.NoteConnected? then true
                    else if heard && (c.NoteDisconnected? || c.NoteExited?) then false
                    else s.connected)
  }

  predicate AlikeFor(s: State, t: State) {
    s.enabled == t.enabled && s.closed == t.closed && s.exited == t.exited && s.connected == t.connected
  }

  lemma {:induction false} SameLines(s: State, t: State, calls: seq<Call>)
    requires AlikeFor(s, t)
    ensures AllLines(s, calls) == AllLines(t, calls)
    decreases |calls|
  {
    if calls != [] {
      SameLines(Heard(s, calls[0]), Heard(t, calls[0]), calls[1..]);
    }
  }

  lemma CallIsHeard(plan: Plan, s: State, c: Call)
    requires NoneFails(plan)
    ensures Handle(plan, s, c).log == s.log + LinesOf(s, c) && AlikeFor(Handle(plan, s, c), Heard(s, c))
  {
    EveryCallIsWritten(plan, s, c);
  }

  lemma LinesJoin(log: seq<Entry>, a: seq<Entry>, b: seq<Entry>)
    ensures log + a + b == log + (a + b)
  {
  }

  /** And a run of calls adds exactly the lines of its calls, one after another. */
  lemma {:induction false} EveryRunIsWritten(plan: Plan, s: State, calls: seq<Call>)
    requires NoneFails(plan)
    ensures HandleAll(plan, s, calls).log == s.log + AllLines(s, calls)
    decreases |calls|
  {
    if calls != [] {
      var t, h := Handle(plan, s, calls[0]), Heard(s, calls[0]);
      CallIsHeard(plan, s, calls[0]);
      EveryRunIsWritten(plan, t, calls[1..]);
      SameLines(t, h, calls[1..]);
      LinesJoin(s.log, LinesOf(s, calls[0]), AllLines(h, calls[1..]));
    }
  }
}
