/** Transaction settings on pooled connections: `ContextSession`,
    `_apply_transaction_settings` and `set_transaction_settings` of app/db.py,
    in every interleaving of sessions over shared server connections. */
module Sessions {
  import opened Common
  import opened Access

  /** `info` is session.info["transaction_settings"]; `connection` the server
      connection its open transaction runs on. */
  datatype Session = Session(info: Option<map<Name, string>>, connection: Option<int>)

  /** `local` are the settings the open transaction made; `known` those any
      transaction on the connection ever made, '' once it has ended. */
  datatype Connection = Connection(known: set<Name>, local: map<Name, string>, owner: Option<int>)

  /** `given` is history: every value a session was given. */
  datatype State = State(sessions: map<int, Session>, connections: map<int, Connection>,
                         given: map<int, set<(Name, string)>>)

  const Initial := State(map[], map[], map[])

  datatype Step =
    | Open(session: int)
    | SetSettings(session: int, values: map<Name, string>)
    | Begin(session: int, connection: int)
    | End(session: int)            // commit or rollback
    | Close(session: int)
    | Connect(connection: int)
    | Disconnect(connection: int)  // lost, with any transaction on it

  /** set_config(name, value, true) for each of the values. */
  function Configured(c: Connection, values: map<Name, string>): (r: Connection)
    ensures r.owner == c.owner
  {
    c.(known := c.known + values.Keys, local := c.local + values)
  }

  function Ended(c: Connection): Connection {
    c.(local := map[], owner := None)
  }

  /** What current_setting(name, true) shows in the open transaction. */
  function Current(c: Connection): Settings {
    name => if name in c.local then Some(c.local[name]) else if name in c.known then Some("") else None
  }

  predicate InTransaction(st: State, s: int) {
    s in st.sessions && st.sessions[s].connection.Some? && st.sessions[s].connection.value in st.connections
  }

  function ConnectionOf(st: State, s: int): int
    requires InTransaction(st, s)
  {
    st.sessions[s].connection.value
  }

  function Seen(st: State, s: int): Settings
    requires InTransaction(st, s)
  {
    Current(st.connections[ConnectionOf(st, s)])
  }

  predicate Enabled(st: State, step: Step) {
    match step
    case Open(s) => s !in st.sessions
    case SetSettings(s, _) => s in st.sessions
    case Begin(s, c) =>
      s in st.sessions && st.sessions[s].connection.None? && c in st.connections && st.connections[c].owner.None?
    case End(s) => InTransaction(st, s)
    case Close(s) => s in st.sessions && st.sessions[s].connection.None?
    case Connect(c) => c !in st.connections
    case Disconnect(c) => c in st.connections
  }

  function Values(info: Option<map<Name, string>>): map<Name, string> {
    if info.Some? then info.value else map[]
  }

  function GivenTo(st: State, s: int): set<(Name, string)> {
    if s in st.given then st.given[s] else {}
  }

  function Next(st: State, step: Step): State {
    if !Enabled(st, step) then st else
    match step
    case Open(s) => st.(sessions := st.sessions[s := Session(None, None)], given := st.given[s := {}])
    case SetSettings(s, values) =>
      State(st.sessions[s := st.sessions[s].(info := Some(values))],
            if InTransaction(st, s) then
              st.connections[ConnectionOf(st, s) := Configured(st.connections[ConnectionOf(st, s)], values)]
            else st.connections,
            st.given[s := GivenTo(st, s) + values.Items])
    case Begin(s, c) =>
      st.(sessions := st.sessions[s := st.sessions[s].(connection := Some(c))],
          connections := st.connections[c := Configured(st.connections[c].(owner := Some(s)),
                                                        Values(st.sessions[s].info))])
    case End(s) =>
      st.(sessions := st.sessions[s := st.sessions[s].(connection := None)],
          connections := st.connections[ConnectionOf(st, s) := Ended(st.connections[ConnectionOf(st, s)])])
    case Close(s) => st.(sessions := st.sessions - {s})
    case Connect(c) => st.(connections := st.connections[c := Connection({}, map[], None)])
    case Disconnect(c) =>
      var owner := st.connections[c].owner;
      st.(sessions := if owner.Some? && owner.value in st.sessions
                      then st.sessions[owner.value := st.sessions[owner.value].(connection := None)] else st.sessions,
          connections := st.connections - {c})
  }

  function Run(steps: seq<Step>): State {
    if steps == [] then Initial else Next(Run(steps[..|steps| - 1]), steps[|steps| - 1])
  }

  // ---- The code's state and steps ------------------------------------------------

  class Pool {
    var sessions: map<int, Session>
    var connections: map<int, Connection>
    ghost var given: map<int, set<(Name, string)>>

    ghost function Snapshot(): State
      reads this
    {
      State(sessions, connections, given)
    }

    constructor ()
      ensures Snapshot() == Initial
    {
      sessions, connections, given := map[], map[], map[];
    }

    /** The connection runs SELECT set_config(...). */
    method SetConfig(c: int, values: map<Name, string>)
      requires c in connections
      modifies this`connections
      ensures connections == old(connections)[c := Configured(old(connections)[c], values)]
    {
      connections := connections[c := Configured(connections[c], values)];
    }

    /** `_apply_transaction_settings`, as a transaction begins. */
    method BeginTransaction(s: int, c: int)
      requires Enabled(Snapshot(), Begin(s, c))
      modifies this
      ensures Snapshot() == Next(old(Snapshot()), Begin(s, c))
    {
      sessions := sessions[s := sessions[s].(connection := Some(c))];
      connections := connections[c := connections[c].(owner := Some(s))];
      var values := sessions[s].info;
      if values.Some? && values.value != map[] {
        SetConfig(c, values.value);
      } else {
        assert Configured(connections[c], Values(values)) == connections[c];
      }
    }

    /** `set_transaction_settings`: for the open transaction, if any, and every
        later one. */
    method SetTransactionSettings(s: int, values: map<Name, string>)
      requires Enabled(Snapshot(), SetSettings(s, values))
      requires sessions[s].connection.Some? ==> sessions[s].connection.value in connections
      modifies this
      ensures Snapshot() == Next(old(Snapshot()), SetSettings(s, values))
    {
      given := given[s := GivenTo(Snapshot(), s) + values.Items];
      sessions := sessions[s := sessions[s].(info := Some(values))];
      if sessions[s].connection.Some? { SetConfig(sessions[s].connection.value, values); }
    }

    method EndTransaction(s: int)
      requires Enabled(Snapshot(), End(s))
      modifies this
      ensures Snapshot() == Next(old(Snapshot()), End(s))
    {
      var c := sessions[s].connection.value;
      sessions := sessions[s := sessions[s].(connection := None)];
      connections := connections[c := Ended(connections[c])];
    }
  }

  // ---- The invariant of every run -----------------------------------------------------

  /** A session in a transaction and its connection know each other, and a
      free connection holds no transaction's settings. */
  ghost predicate Paired(st: State) {
    && (forall s | s in st.sessions && st.sessions[s].connection.Some? ::
          var c := st.sessions[s].connection.value;
          c in st.connections && st.connections[c].owner == Some(s))
    && (forall c | c in st.connections ::
          var conn := st.connections[c];
          (conn.owner.None? ==> conn.local == map[])
          && (conn.owner.Some? ==>
                conn.owner.value in st.sessions && st.sessions[conn.owner.value].connection == Some(c)))
  }

  /** In a transaction the session's settings are in force, and every setting
      made was given to that session. */
  ghost predicate OwnValuesOf(st: State, s: int)
    requires InTransaction(st, s)
  {
    var local := st.connections[ConnectionOf(st, s)].local;
    && (forall k | k in Values(st.sessions[s].info) :: k in local && local[k] == Values(st.sessions[s].info)[k])
    && (forall k | k in local :: (k, local[k]) in GivenTo(st, s))
  }

  ghost predicate OwnValues(st: State) {
    forall s | s in st.sessions && InTransaction(st, s) :: OwnValuesOf(st, s)
  }

  /** What a session was given includes what it has. */
  ghost predicate InfoWasGiven(st: State) {
    forall s | s in st.sessions ::
      forall k | k in Values(st.sessions[s].info) :: (k, Values(st.sessions[s].info)[k]) in GivenTo(st, s)
  }

  ghost predicate Inv(st: State) {
    Paired(st) && OwnValues(st) && InfoWasGiven(st)
  }

  lemma NextKeepsPaired(st: State, step: Step)
    requires Inv(st)
    ensures Paired(Next(st, step))
  {
    hide OwnValues, InfoWasGiven, Configured, Values, GivenTo;
    match step {
      case SetSettings(s, values) => SettingKeepsPaired(st, s, values);
      case Begin(s, c) => BeginKeepsPaired(st, s, c);
      case Disconnect(c) => DisconnectKeepsPaired(st, c);
      case _ =>
    }
  }

  lemma SettingKeepsPaired(st: State, s: int, values: map<Name, string>)
    requires Paired(st)
    ensures Paired(Next(st, SetSettings(s, values)))
  {
    hide Configured, Values, GivenTo;
  }

  lemma BeginKeepsPaired(st: State, s: int, c: int)
    requires Paired(st)
    ensures Paired(Next(st, Begin(s, c)))
  {
    hide Configured, Values, GivenTo;
  }

  lemma DisconnectKeepsPaired(st: State, c: int)
    requires Paired(st)
    ensures Paired(Next(st, Disconnect(c)))
  {
    hide Configured, Values, GivenTo;
  }

  lemma NextKeepsGiven(st: State, step: Step)
    requires Inv(st)
    ensures InfoWasGiven(Next(st, step))
  {
    hide Paired, OwnValues;
  }

  /** A step is another session's, or happens outside a transaction: the
      session's connection and values stay. */
  lemma OthersKeepValues(st: State, step: Step, s: int)
    requires Inv(st) && InTransaction(Next(st, step), s)
    requires match step case SetSettings(t, _) => t != s case Begin(t, _) => t != s case _ => true
    ensures InTransaction(st, s) && ConnectionOf(Next(st, step), s) == ConnectionOf(st, s)
    ensures Next(st, step).connections[ConnectionOf(st, s)] == st.connections[ConnectionOf(st, s)]
    ensures Next(st, step).sessions[s] == st.sessions[s] && GivenTo(Next(st, step), s) == GivenTo(st, s)
  {
    hide OwnValues, InfoWasGiven, Configured, Ended, Values;
  }

  lemma OwnKeepsValues(st: State, step: Step, s: int)
    requires Inv(st) && Enabled(st, step) && InTransaction(Next(st, step), s)
    requires match step case SetSettings(t, _) => t == s case Begin(t, _) => t == s case _ => false
    ensures OwnValuesOf(Next(st, step), s)
  {
    if step.SetSettings? {
      assert InTransaction(st, s);
      assert OwnValuesOf(st, s);
    }
    hide OwnValues;
  }

  lemma NextKeepsValues(st: State, step: Step)
    requires Inv(st)
    ensures OwnValues(Next(st, step))
  {
    hide Paired, InfoWasGiven, OwnValuesOf;
    forall s | s in Next(st, step).sessions && InTransaction(Next(st, step), s)
      ensures OwnValuesOf(Next(st, step), s)
    {
      var own := match step case SetSettings(t, _) => t == s case Begin(t, _) => t == s case _ => false;
      if Enabled(st, step) {
        if own { OwnKeepsValues(st, step, s); } else { ValuesStay(st, step, s); }
      }
    }
  }

  lemma ValuesStay(st: State, step: Step, s: int)
    requires Inv(st) && InTransaction(Next(st, step), s)
    requires match step case SetSettings(t, _) => t != s case Begin(t, _) => t != s case _ => true
    ensures OwnValuesOf(Next(st, step), s)
  {
    hide Next, Paired, InfoWasGiven;
    OthersKeepValues(st, step, s);
    assert OwnValuesOf(st, s);
  }

  lemma {:induction false} RunKeeps(steps: seq<Step>)
    ensures Inv(Run(steps))
  {
    if steps != [] {
      var front, last := steps[..|steps| - 1], steps[|steps| - 1];
      RunKeeps(front);
      hide Next, Paired, OwnValues, InfoWasGiven;
      NextKeepsPaired(Run(front), last);
      NextKeepsGiven(Run(front), last);
      NextKeepsValues(Run(front), last);
    }
  }

  // ---- The steps happen --------------------------------------------------------------

  lemma RunMore(steps: seq<Step>, step: Step)
    ensures Run(steps + [step]) == Next(Run(steps), step)
  {
    assert (steps + [step])[..|steps|] == steps;
    hide Next;
  }

  /** A new session on a new connection: in a transaction, no setting seen. */
  lemma FreshSeesNothing(steps: seq<Step>, s: int, c: int, name: Name)
    requires s !in Run(steps).sessions && c !in Run(steps).connections
    ensures var st := Run(steps + [Open(s)] + [Connect(c)] + [Begin(s, c)]);
            InTransaction(st, s) && ConnectionOf(st, s) == c && Seen(st, s)(name) == None
  {
    RunMore(steps, Open(s));
    RunMore(steps + [Open(s)], Connect(c));
    RunMore(steps + [Open(s)] + [Connect(c)], Begin(s, c));
    hide Run;
  }

  /** A session closes exactly outside a transaction, and no other with it. */
  lemma CloseForgets(steps: seq<Step>, s: int)
    requires s in Run(steps).sessions
    ensures var st, after := Run(steps), Run(steps + [Close(s)]);
            && (s in after.sessions <==> st.sessions[s].connection.Some?)
            && after.connections == st.connections
            && forall t | t != s :: t in after.sessions <==> t in st.sessions
  {
    RunMore(steps, Close(s));
    hide Run;
  }

  /** The end of a transaction frees its connection, which remembers the names
      alone; the session keeps its values for the next. */
  lemma EndFrees(steps: seq<Step>, s: int, name: Name)
    requires InTransaction(Run(steps), s)
    ensures var st, after := Run(steps), Run(steps + [End(s)]);
            var c := ConnectionOf(st, s);
            && after.sessions == st.sessions[s := Session(st.sessions[s].info, None)]
            && c in after.connections && after.connections[c].owner == None
            && Current(after.connections[c])(name)
               == (if name in st.connections[c].known then Some("") else None)
  {
    RunMore(steps, End(s));
    hide Run;
  }

  /** A lost connection ends its owner's transaction and takes all it knew. */
  lemma LossEnds(steps: seq<Step>, s: int)
    requires InTransaction(Run(steps), s)
    ensures var st := Run(steps);
            var c := ConnectionOf(st, s);
            var after := Run(steps + [Disconnect(c)]);
            c !in after.connections && after.sessions == st.sessions[s := Session(st.sessions[s].info, None)]
  {
    RunKeeps(steps);
    RunMore(steps, Disconnect(ConnectionOf(Run(steps), s)));
    hide Run, OwnValues, InfoWasGiven;
  }

  // ---- A statement sees its own session's settings, or none --------------------------------

  /** In every interleaving, every setting a statement sees is the session's
      own: what it has now is in force, and anything else is unset, empty, or
      a value it was itself given earlier. */
  lemma SeesItsOwn(steps: seq<Step>, s: int, name: Name)
    requires InTransaction(Run(steps), s)
    ensures var st := Run(steps);
            var info, seen := Values(st.sessions[s].info), Seen(st, s)(name);
            && (name in info ==> seen == Some(info[name]))
            && (seen.None? || seen == Some("") || (name, seen.value) in GivenTo(st, s))
  {
    RunKeeps(steps);
    var st := Run(steps);
    hide Run, Paired, InfoWasGiven;
    assert OwnValuesOf(st, s);
  }

  /** What other sessions do - begin, set, commit, on any connection - changes
      nothing a session sees. */
  lemma OthersChangeNothing(steps: seq<Step>, step: Step, s: int)
    requires InTransaction(Run(steps), s)
    requires match step
             case SetSettings(t, _) => t != s
             case Begin(t, _) => t != s
             case End(t) => t != s
             case Disconnect(c) => c != ConnectionOf(Run(steps), s)
             case _ => true
    ensures InTransaction(Next(Run(steps), step), s)
    ensures forall name :: Seen(Next(Run(steps), step), s)(name) == Seen(Run(steps), s)(name)
  {
    RunKeeps(steps);
    var st := Run(steps);
    hide Run, InfoWasGiven, OwnValues;
    OthersLeaveIt(st, step, s);
  }

  lemma OthersLeaveIt(st: State, step: Step, s: int)
    requires Paired(st) && InTransaction(st, s)
    requires match step
             case SetSettings(t, _) => t != s
             case Begin(t, _) => t != s
             case End(t) => t != s
             case Disconnect(c) => c != ConnectionOf(st, s)
             case _ => true
    ensures var st' := Next(st, step);
            InTransaction(st', s) && ConnectionOf(st', s) == ConnectionOf(st, s)
            && st'.connections[ConnectionOf(st, s)] == st.connections[ConnectionOf(st, s)]
  {
    hide Configured, Ended, Values;
  }

  // ---- Which settings are in force -----------------------------------------------------------

  /** The values made for session `s` since its open transaction began: its
      values then, and those it was given since. */
  function Made(steps: seq<Step>, s: int): map<Name, string> {
    if steps == [] then map[]
    else
      var front, last := steps[..|steps| - 1], steps[|steps| - 1];
      var st := Run(front);
      match last
      case Begin(t, _) => if t == s && Enabled(st, last) then Values(st.sessions[s].info) else Made(front, s)
      case SetSettings(t, values) =>
        if t == s && Enabled(st, last) then Made(front, s) + values else Made(front, s)
      case _ => Made(front, s)
  }

  lemma RunOneMore(steps: seq<Step>)
    requires steps != []
    ensures Run(steps) == Next(Run(steps[..|steps| - 1]), steps[|steps| - 1])
  {
    hide Next;
  }

  /** A beginning transaction makes its session's values and no other. */
  lemma BeginMakes(st: State, s: int, c: int)
    requires Inv(st) && Enabled(st, Begin(s, c))
    ensures var st' := Next(st, Begin(s, c));
            InTransaction(st', s) && st'.connections[ConnectionOf(st', s)].local == Values(st.sessions[s].info)
  {
    assert st.connections[c].local == map[];
    hide OwnValues, InfoWasGiven;
  }

  lemma SetMakes(st: State, s: int, values: map<Name, string>)
    requires Inv(st) && Enabled(st, SetSettings(s, values)) && InTransaction(Next(st, SetSettings(s, values)), s)
    ensures var st' := Next(st, SetSettings(s, values));
            InTransaction(st, s)
            && st'.connections[ConnectionOf(st', s)].local == st.connections[ConnectionOf(st, s)].local + values
  {
    hide Paired, OwnValues, InfoWasGiven;
  }

  /** What a connection holds for its session is what was made for it. */
  lemma {:induction false} LocalIsMade(steps: seq<Step>, s: int)
    requires InTransaction(Run(steps), s)
    ensures Run(steps).connections[ConnectionOf(Run(steps), s)].local == Made(steps, s)
  {
    hide Inv, Next, Enabled;
    if steps == [] {
      NobodyThere(s);
    } else {
      var front, last := steps[..|steps| - 1], steps[|steps| - 1];
      var st := Run(front);
      RunKeeps(front);
      RunOneMore(steps);
      hide Run;
      if !Enabled(st, last) {
        DisabledStays(st, last);
        LocalIsMade(front, s);
      } else if last.Begin? && last.session == s {
        BeginMakes(st, s, last.connection);
      } else if last.SetSettings? && last.session == s {
        SetMakes(st, s, last.values);
        LocalIsMade(front, s);
      } else {
        OthersKeepValues(st, last, s);
        LocalIsMade(front, s);
      }
    }
  }

  lemma DisabledStays(st: State, step: Step)
    requires !Enabled(st, step)
    ensures Next(st, step) == st
  {
    hide Enabled;
  }

  lemma NobodyThere(s: int)
    ensures !InTransaction(Run([]), s)
  {
  }

  /** The names given a value on a connection since it was opened. */
  function EverMade(steps: seq<Step>, c: int): set<Name> {
    if steps == [] then {}
    else
      var front, last := steps[..|steps| - 1], steps[|steps| - 1];
      var st := Run(front);
      if !Enabled(st, last) then EverMade(front, c)
      else
        match last
        case Connect(d) => if d == c then {} else EverMade(front, c)
        case Begin(s, d) => EverMade(front, c) + (if d == c then Values(st.sessions[s].info).Keys else {})
        case SetSettings(s, values) =>
          EverMade(front, c) + (if InTransaction(st, s) && ConnectionOf(st, s) == c then values.Keys else {})
        case _ => EverMade(front, c)
  }

  lemma {:induction false} KnownIsMade(steps: seq<Step>, c: int)
    ensures c in Run(steps).connections ==> Run(steps).connections[c].known == EverMade(steps, c)
  {
    if steps != [] {
      var front, last := steps[..|steps| - 1], steps[|steps| - 1];
      KnownIsMade(front, c);
      RunOneMore(steps);
      hide Run;
      if c in Run(steps).connections { StepKnows(Run(front), last, c); }
    }
  }

  lemma StepKnows(st: State, step: Step, c: int)
    requires c in Next(st, step).connections
    ensures Enabled(st, step) && step == Connect(c) ==> Next(st, step).connections[c].known == {}
    ensures !(Enabled(st, step) && step == Connect(c)) ==>
              c in st.connections
              && Next(st, step).connections[c].known
                 == st.connections[c].known
                    + (if !Enabled(st, step) then {}
                       else match step
                            case Begin(s, d) => if d == c then Values(st.sessions[s].info).Keys else {}
                            case SetSettings(s, values) =>
                              if InTransaction(st, s) && ConnectionOf(st, s) == c then values.Keys else {}
                            case _ => {})
  {
    hide Values, GivenTo;
  }

  /** What a statement sees of every setting: its value, if it was given one
      since the transaction began; else "" if it was ever given one on this
      connection; else NULL. */
  lemma SeenExactly(steps: seq<Step>, s: int, name: Name)
    requires InTransaction(Run(steps), s)
    ensures Seen(Run(steps), s)(name)
            == if name in Made(steps, s) then Some(Made(steps, s)[name])
               else if name in EverMade(steps, ConnectionOf(Run(steps), s)) then Some("")
               else None
  {
    LocalIsMade(steps, s);
    KnownIsMade(steps, ConnectionOf(Run(steps), s));
    hide Run, Made, EverMade;
  }

  /** A session given nothing yet has made nothing. */
  lemma {:induction false} NoInfoNoValues(steps: seq<Step>, s: int)
    requires InTransaction(Run(steps), s) && Run(steps).sessions[s].info.None?
    ensures Made(steps, s) == map[]
  {
    hide Inv, Next, Enabled;
    if steps == [] {
      NobodyThere(s);
    } else {
      var front, last := steps[..|steps| - 1], steps[|steps| - 1];
      var st := Run(front);
      RunKeeps(front);
      RunOneMore(steps);
      hide Run;
      if !Enabled(st, last) {
        DisabledStays(st, last);
        NoInfoNoValues(front, s);
      } else if last.Begin? && last.session == s {
        NoInfoAtBegin(st, s, last.connection);
      } else if last.SetSettings? && last.session == s {
        SetGivesInfo(st, s, last.values);
      } else {
        OthersKeepValues(st, last, s);
        NoInfoNoValues(front, s);
      }
    }
  }

  lemma NoInfoAtBegin(st: State, s: int, c: int)
    requires Enabled(st, Begin(s, c))
    ensures Next(st, Begin(s, c)).sessions[s].info == st.sessions[s].info
  {
  }

  lemma SetGivesInfo(st: State, s: int, values: map<Name, string>)
    requires Enabled(st, SetSettings(s, values))
    ensures Next(st, SetSettings(s, values)).sessions[s].info == Some(values)
  {
  }

  /** Nothing but the current names was made in this transaction. */
  ghost predicate OnlyCurrentNames(steps: seq<Step>, s: int)
    requires InTransaction(Run(steps), s)
  {
    var info := Values(Run(steps).sessions[s].info);
    forall k | k in Made(steps, s) :: k in info || Made(steps, s)[k] == ""
  }

  /** In every interleaving, exactly a session's current settings are in force
      exactly when no other name was given a value within its transaction. */
  lemma OwnSettingsInForceExactly(steps: seq<Step>, s: int)
    requires InTransaction(Run(steps), s)
    ensures InForce(Seen(Run(steps), s), Values(Run(steps).sessions[s].info)) <==> OnlyCurrentNames(steps, s)
  {
    LocalIsMade(steps, s);
    RunKeeps(steps);
    var st := Run(steps);
    assert OwnValuesOf(st, s);
    hide Run, Made, Paired, InfoWasGiven, OwnValues;
    var c := st.connections[ConnectionOf(st, s)];
    var info := Values(st.sessions[s].info);
    forall name: Name
      ensures (if name in info then Current(c)(name) == Some(info[name])
               else Current(c)(name).None? || Current(c)(name) == Some(""))
              <==> (name in c.local ==> name in info || c.local[name] == "")
    {
    }
  }

  /** A session is always given the same names, as every caller does: a
      principal's five, or one of a service or a command. */
  ghost predicate SameNames(steps: seq<Step>, s: int, names: set<Name>) {
    forall i | 0 <= i < |steps| && steps[i].SetSettings? && steps[i].session == s :: steps[i].values.Keys == names
  }

  lemma {:induction false} SameNamesMade(steps: seq<Step>, s: int, names: set<Name>)
    requires SameNames(steps, s, names)
    ensures s in Run(steps).sessions && Run(steps).sessions[s].info.Some? ==>
              Run(steps).sessions[s].info.value.Keys == names
    ensures Made(steps, s).Keys <= names
  {
    if steps != [] {
      var front, last := steps[..|steps| - 1], steps[|steps| - 1];
      SameNamesMade(front, s, names);
      RunOneMore(steps);
      RunKeeps(steps);
      if InTransaction(Run(steps), s) { LocalIsMade(steps, s); }
      InfoStays(Run(front), last, s);
      assert steps[|steps| - 1] == last;
      hide Run, Inv, Next;
    }
  }

  lemma InfoStays(st: State, step: Step, s: int)
    ensures s in Next(st, step).sessions ==>
              var info := Next(st, step).sessions[s].info;
              info.None? || (s in st.sessions && info == st.sessions[s].info)
              || (step.SetSettings? && step.session == s && info == Some(step.values))
  {
    hide Configured, Ended, Values;
  }

  /** Then exactly its current settings are in force, across commits. */
  lemma OwnSettingsInForce(steps: seq<Step>, s: int, names: set<Name>)
    requires SameNames(steps, s, names) && InTransaction(Run(steps), s)
    ensures InForce(Seen(Run(steps), s), Values(Run(steps).sessions[s].info))
  {
    SameNamesMade(steps, s, names);
    if Run(steps).sessions[s].info.None? { NoInfoNoValues(steps, s); }
    OwnSettingsInForceExactly(steps, s);
    hide Run, Made, InForce, SameNames;
  }

  /** A session given other names within one transaction keeps the earlier ones
      until that transaction ends: here an org admin's right outlives the
      change to a service's. */
  lemma OtherNamesStay(st: State, s: int, admin: map<Name, string>, service: map<Name, string>)
    requires InTransaction(st, s)
    requires OrgAdmin in admin && admin[OrgAdmin] == ON && OrgAdmin !in service
    ensures var mixed := Next(Next(st, SetSettings(s, admin)), SetSettings(s, service));
            && InTransaction(mixed, s) && mixed.sessions[s].info == Some(service) && IsOrgAdmin(Seen(mixed, s))
            && var later := Next(Next(mixed, End(s)), Begin(s, ConnectionOf(mixed, s)));
               InTransaction(later, s) && later.sessions[s].info == Some(service) && !IsOrgAdmin(Seen(later, s))
  {
    var mixed := Next(Next(st, SetSettings(s, admin)), SetSettings(s, service));
    assert InTransaction(mixed, s);
    var c := ConnectionOf(mixed, s);
    var local := mixed.connections[c].local;
    assert OrgAdmin in local && local[OrgAdmin] == ON;
    var ended := Next(mixed, End(s));
    assert ended.connections[c].owner.None? && ended.connections[c].local == map[];
    assert |ON| > 0;
  }

  // ---- With the policies --------------------------------------------------------------------

  /** From end to end: in every interleaving, a statement of a session that
      was given a principal's settings, and in its transaction no others, may
      read, add and delete a team's alerts exactly when `require_role` passes
      for viewer, responder and admin; before the session was given any, it
      sees no rows and can change none. */
  lemma RowsFollowRoles(steps: seq<Step>, s: int, p: Principal, teamId: int)
    requires InTransaction(Run(steps), s)
    requires forall i, j | 0 <= i < j < |p.teams| :: p.teams[i].id != p.teams[j].id
    ensures Run(steps).sessions[s].info == Some(TenantSettings(p)) && OnlyCurrentNames(steps, s) ==>
              Agree(p, Seen(Run(steps), s), teamId)
    ensures Run(steps).sessions[s].info == None ==>
              var seen := Seen(Run(steps), s);
              !MaySelect(seen, teamId) && !MayInsert(seen, teamId) && !MayDelete(seen, teamId)
  {
    OwnSettingsInForceExactly(steps, s);
    if Run(steps).sessions[s].info.None? { NoInfoNoValues(steps, s); }
    var st := Run(steps);
    hide Run, Made, InForce, TenantSettings, Agree, MaySelect, MayInsert, MayDelete, Seen;
    if st.sessions[s].info == Some(TenantSettings(p)) && OnlyCurrentNames(steps, s) {
      PoliciesAgree(p, Seen(st, s), teamId);
    }
    if st.sessions[s].info == None { NoContextNoRows(Seen(st, s), teamId); }
  }
}
