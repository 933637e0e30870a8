/** The rules of the access controller: what each locked operation makes of its state.
 */
module AccessRules {
  import opened Collections

  datatype Level = Read | Prepare | Execute

  function Rank(level: Level): nat {
    match level
    case Read => 0
    case Prepare => 1
    case Execute => 2
  }

  /** What the current connection has shown of itself. */
  datatype Session = Session(clientName: Option<string>, clientVersion: Option<string>, lastSeen: Option<nat>,
                             authenticated: Option<nat>, failure: Option<nat>, succeeded: Option<bool>)

  const NO_SESSION := Session(None, None, None, None, None, None)

  /** The controller; `stored` is the token in the secret store, `issued` the authority ids handed out so far. */
  datatype State = State(stored: Option<string>, token: Option<string>, accepting: bool, grants: map<string, Level>,
                         authorities: map<string, string>, session: Session, issued: set<string>)

  function Cleared(s: State): State {
    s.(grants := map[], authorities := map[], session := NO_SESSION)
  }

  predicate Open(s: State) {
    s.token.Some? && s.accepting
  }

  function LevelFor(s: State, project: string): Level {
    if project in s.grants then s.grants[project] else Read
  }

  predicate Active(s: State, project: string, id: string) {
    Open(s) && LevelFor(s, project) == Execute && project in s.authorities && s.authorities[project] == id
  }

  datatype Command =
    | Pair(token: string)
    | Rotate(token: string)
    | Resume
    | Pause
    | Forget
    | SetLevel(project: string, level: Level, id: string)
    | Authenticate(header: Option<string>, now: nat)
    | Activity(name: Option<string>, version: Option<string>, now: nat)
    | Close
    | Restart

  /** A new token or authority id has not been seen before. */
  predicate Fresh(s: State, c: Command) {
    c.SetLevel? ==> c.id !in s.issued
  }

  /** The effect of a command; a command that is refused changes nothing. */
  function Next(s: State, c: Command): State {
    match c
    case Pair(token) =>
      if s.token.None? then s.(stored := Some(token), token := Some(token), grants := map[], accepting := true)
      else s.(accepting := true)
    case Rotate(token) =>
      if s.token.None? then s else Cleared(s.(stored := Some(token), token := Some(token), accepting := true))
    case Resume => if s.token.None? then s else Cleared(s.(accepting := true))
    case Pause => Cleared(s.(accepting := false))
    case Forget => Cleared(s.(stored := None, token := None, accepting := false))
    case SetLevel(project, level, id) =>
      if !Open(s) then s
      else s.(grants := if level.Read? then s.grants - {project} else s.grants[project := level],
              authorities := s.authorities[project := id], issued := s.issued + {id})
    case Authenticate(header, now) => if !Open(s) then s else Authenticated(s, header, now)
    case Activity(name, version, now) => if !Open(s) then s else Noted(s, name, version, now)
    case Close => Cleared(s.(token := None, accepting := false))
    case Restart => Cleared(s.(token := s.stored, accepting := s.stored.Some?))
  }

  /** A bearer header is right when it carries the current token. */
  predicate Accepted(s: State, header: Option<string>) {
    Open(s) && header == s.token
  }

  function Authenticated(s: State, header: Option<string>, now: nat): State {
    if Accepted(s, header) then s.(session := s.session.(authenticated := Some(now), succeeded := Some(true)))
    else s.(session := s.session.(failure := Some(now), succeeded := Some(false)))
  }

  /** A later request without a client identity does not erase the one already known. */
  function Noted(s: State, name: Option<string>, version: Option<string>, now: nat): State {
    s.(session := s.session.(clientName := if name.Some? then name else s.session.clientName,
                             clientVersion := if version.Some? then version else s.session.clientVersion,
                             lastSeen := Some(now)))
  }

  function Initial(stored: Option<string>): State {
    State(stored, stored, stored.Some?, map[], map[], NO_SESSION, {})
  }

  // ---------------------------------------------------------------------------------------------
  // Runs

  /** Authorities and grants exist only while connections are accepted, and every authority was issued. */
  predicate Invariant(s: State) {
    && (s.authorities != map[] || s.grants != map[] ==> Open(s))
    && s.grants.Keys <= s.authorities.Keys
    && (s.accepting ==> s.token.Some?)
    && (s.token.Some? ==> s.stored == s.token)
    && (forall p | p in s.authorities :: s.authorities[p] in s.issued)
    && (forall p, q | p in s.authorities && q in s.authorities && s.authorities[p] == s.authorities[q] :: p == q)
  }

  lemma StepKeeps(s: State, c: Command)
    requires Invariant(s) && Fresh(s, c)
    ensures Invariant(Next(s, c))
  {
    if c.SetLevel? && Open(s) {
      var t := Next(s, c);
      forall p | p in t.authorities ensures t.authorities[p] in t.issued {
      }
    }
  }

  /** The states a run goes through. */
  ghost predicate Run(states: seq<State>, commands: seq<Command>) {
    && |states| == |commands| + 1
    && (exists stored :: states[0] == Initial(stored))
    && forall i | 0 <= i < |commands| :: Fresh(states[i], commands[i]) && states[i + 1] == Next(states[i], commands[i])
  }

  lemma {:induction false} RunKeeps(states: seq<State>, commands: seq<Command>, i: nat)
    requires Run(states, commands) && i < |states|
    ensures Invariant(states[i])
  {
    if i > 0 {
      RunKeeps(states, commands, i - 1);
      StepKeeps(states[i - 1], commands[i - 1]);
    }
  }

  /** An issued authority that is not active does not become active. */
  lemma StepRetires(s: State, c: Command, project: string, id: string)
    requires Invariant(s) && Fresh(s, c) && id in s.issued && !Active(s, project, id)
    ensures id in Next(s, c).issued && !Active(Next(s, c), project, id)
  {
  }

  lemma {:induction false} StaysRetired(states: seq<State>, commands: seq<Command>, j: nat, k: nat, project: string,
      id: string)
    requires Run(states, commands) && j <= k < |states| && id in states[j].issued && !Active(states[j], project, id)
    ensures id in states[k].issued && !Active(states[k], project, id)
    decreases k
  {
    if j < k {
      StaysRetired(states, commands, j, k - 1, project, id);
      RunKeeps(states, commands, k - 1);
      StepRetires(states[k - 1], commands[k - 1], project, id);
    }
  }

  lemma {:induction false} IssuedStays(states: seq<State>, commands: seq<Command>, i: nat, j: nat, id: string)
    requires Run(states, commands) && i <= j < |states| && id in states[i].issued
    ensures id in states[j].issued
    decreases j
  {
    if i < j {
      IssuedStays(states, commands, i, j - 1, id);
    }
  }

  /** An execution authority that was active and no longer is never becomes active again, not even for another
      project or after a restart. */
  lemma RevokedStaysRevoked(states: seq<State>, commands: seq<Command>, i: nat, j: nat, k: nat, project: string,
      other: string, id: string)
    requires Run(states, commands) && i <= j <= k < |states|
    requires Active(states[i], project, id) && !Active(states[j], project, id)
    ensures !Active(states[k], other, id)
  {
    RunKeeps(states, commands, i);
    IssuedStays(states, commands, i, j, id);
    if other == project {
      StaysRetired(states, commands, j, k, project, id);
    } else {
      assert !Active(states[i], other, id);
      StaysRetired(states, commands, i, k, other, id);
    }
  }

  /** Whether a command takes every grant away. */
  predicate ClearsAll(s: State, c: Command) {
    || c.Pause? || c.Forget? || c.Close? || c.Restart?
    || ((c.Rotate? || c.Resume?) && s.token.Some?)
    || (c.Pair? && s.token.None?)
  }

  /** A project is above READ only because it was given that level, with connections open, and neither its level
      was set again nor all grants were taken away since. */
  lemma {:induction false} GrantsHaveACause(states: seq<State>, commands: seq<Command>, k: nat,
      project: string) returns (i: nat)
    requires Run(states, commands) && k < |states| && LevelFor(states[k], project) != Read
    ensures i < k && commands[i].SetLevel? && commands[i].project == project
    ensures commands[i].level == LevelFor(states[k], project) && Open(states[i])
    ensures forall j | i < j < k ::
              !ClearsAll(states[j], commands[j]) && !(commands[j].SetLevel? && commands[j].project == project)
  {
    if k > 0 {
      var c, s := commands[k - 1], states[k - 1];
      RunKeeps(states, commands, k - 1);
      LevelStep(s, c, project);
      if c.SetLevel? && c.project == project && Open(s) {
        i := k - 1;
      } else {
        i := GrantsHaveACause(states, commands, k - 1, project);
      }
    }
  }

  lemma LevelStep(s: State, c: Command, project: string)
    requires Invariant(s) && LevelFor(Next(s, c), project) != Read
    ensures c.SetLevel? && c.project == project ==> Open(s) && c.level == LevelFor(Next(s, c), project)
    ensures !(c.SetLevel? && c.project == project) ==>
              !ClearsAll(s, c) && LevelFor(s, project) == LevelFor(Next(s, c), project)
  {
  }

  /** Whether a command forgets what the connection has shown of itself. */
  predicate ForgetsClient(s: State, c: Command) {
    c.Pause? || c.Forget? || c.Close? || c.Restart? || ((c.Rotate? || c.Resume?) && s.token.Some?)
  }

  /** Whether a command names a client. */
  predicate NamesClient(s: State, c: Command) {
    c.Activity? && c.name.Some? && Open(s)
  }

  lemma ClientStep(s: State, c: Command)
    requires Next(s, c).session.clientName.Some?
    ensures if NamesClient(s, c) then Next(s, c).session.clientName == c.name
            else !ForgetsClient(s, c) && Next(s, c).session.clientName == s.session.clientName
  {
  }

  /** The client name is that of the last request that gave one, made while connections were accepted, and nothing
      has made the controller forget the client since. */
  lemma {:induction false} ClientHasACause(states: seq<State>, commands: seq<Command>, k: nat) returns (i: nat)
    requires Run(states, commands) && k < |states| && states[k].session.clientName.Some?
    ensures i < k && NamesClient(states[i], commands[i]) && commands[i].name == states[k].session.clientName
    ensures forall j | i < j < k :: !ForgetsClient(states[j], commands[j]) && !NamesClient(states[j], commands[j])
  {
    if k > 0 {
      ClientStep(states[k - 1], commands[k - 1]);
      if NamesClient(states[k - 1], commands[k - 1]) {
        i := k - 1;
      } else {
        i := ClientHasACause(states, commands, k - 1);
      }
    }
  }
}
