/** The access controller: pairing, the grants of the running service, and the authorities checks are bound to.
 */
module AccessController {
  import opened Collections
  import opened AccessRules

  class MCPAccessController {
    var stored: Option<string>
    var token: Option<string>
    var accepting: bool
    var grants: map<string, Level>
    var authorities: map<string, string>
    var session: Session
    ghost var issued: set<string>

    ghost function State(): State
      reads this
    {
      AccessRules.State(stored, token, accepting, grants, authorities, session, issued)
    }

    /** A service starts with the pairing it finds in the secret store. */
    constructor (stored: Option<string>)
      ensures State() == Initial(stored)
    {
      this.stored, token, accepting := stored, stored, stored.Some?;
      grants, authorities, session, issued := map[], map[], NO_SESSION, {};
    }

    method ClearSession()
      modifies this
      ensures State() == Cleared(old(State()))
    {
      grants, authorities, session := map[], map[], NO_SESSION;
    }

    /** The operations that write the secret store change nothing when the store refuses. */
    method Pair(newToken: string, writable: bool) returns (done: bool)
      modifies this
      ensures done <==> old(token).Some? || writable
      ensures State() == if done then Next(old(State()), AccessRules.Pair(newToken)) else old(State())
    {
      if token.None? {
        if !writable {
          return false;
        }
        stored, token, grants := Some(newToken), Some(newToken), map[];
      }
      accepting := true;
      return true;
    }

    method Rotate(newToken: string, writable: bool) returns (done: bool)
      modifies this
      ensures done <==> old(token).Some? && writable
      ensures State() == if done then Next(old(State()), AccessRules.Rotate(newToken)) else old(State())
    {
      if token.None? || !writable {
        return false;
      }
      stored, token, accepting := Some(newToken), Some(newToken), true;
      ClearSession();
      return true;
    }

    method Resume() returns (done: bool)
      modifies this
      ensures done <==> old(token).Some?
      ensures State() == Next(old(State()), AccessRules.Resume)
    {
      if token.None? {
        return false;
      }
      accepting := true;
      ClearSession();
      return true;
    }

    method Pause()
      modifies this
      ensures State() == Next(old(State()), AccessRules.Pause)
    {
      accepting := false;
      ClearSession();
    }

    method Forget(writable: bool) returns (done: bool)
      modifies this
      ensures done <==> writable
      ensures State() == if done then Next(old(State()), AccessRules.Forget) else old(State())
    {
      if !writable {
        return false;
      }
      stored, token, accepting := None, None, false;
      ClearSession();
      return true;
    }

    method SetLevel(project: string, level: Level, uuid: string) returns (done: bool)
      requires uuid !in issued
      modifies this
      ensures done <==> old(Open(State()))
      ensures State() == Next(old(State()), AccessRules.SetLevel(project, level, uuid))
    {
      if token.None? || !accepting {
        return false;
      }
      if level.Read? {
        grants := grants - {project};
      } else {
        grants := grants[project := level];
      }
      authorities, issued := authorities[project := uuid], issued + {uuid};
      return true;
    }

    /** The authority a check is bound to; the invariant of every run says that it exists. */
    method ExecutionAuthority(project: string) returns (id: Option<string>)
      requires Invariant(State())
      ensures id.Some? <==> accepting && LevelFor(State(), project) == Execute
      ensures id.Some? ==> Active(State(), project, id.value)
    {
      if !accepting || project !in grants || grants[project] != Execute {
        return None;
      }
      assert project in State().authorities;
      return Some(authorities[project]);
    }

    method ExecutionAuthorityActive(project: string, id: string) returns (active: bool)
      ensures active <==> Active(State(), project, id)
    {
      return accepting && token.Some? && project in grants && grants[project] == Execute
             && project in authorities && authorities[project] == id;
    }

    /** Authentication is recorded whether it succeeds or not, unless connections are not accepted at all. */
    method Authorize(header: Option<string>, now: nat) returns (ok: bool)
      modifies this`session
      ensures ok <==> old(token).Some? && old(accepting) && header == old(token)
      ensures session == if ok then old(session).(authenticated := Some(now), succeeded := Some(true))
                         else if old(token).Some? && old(accepting)
                         then old(session).(failure := Some(now), succeeded := Some(false))
                         else old(session)
      ensures State() == Next(old(State()), Authenticate(header, now))
    {
      if token.None? || !accepting {
        return false;
      }
      if header != token {
        session := session.(failure := Some(now), succeeded := Some(false));
        return false;
      }
      session := session.(authenticated := Some(now), succeeded := Some(true));
      return true;
    }

    /** A request above READ needs the current token and a grant that reaches the level. */
    method Require(header: Option<string>, needed: Level, project: string, now: nat) returns (ok: bool)
      modifies this`session
      ensures ok <==>
                && old(token).Some? && old(accepting) && header == old(token)
                && match needed
                   case Read => true
                   case Prepare => project in old(grants) && old(grants)[project] != Read
                   case Execute => project in old(grants) && old(grants)[project] == Execute
      ensures State() == Next(old(State()), Authenticate(header, now))
    {
      ok := Authorize(header, now);
      if ok && !needed.Read? {
        ok := Rank(if project in grants then grants[project] else Read) >= Rank(needed);
      }
    }

    method NoteActivity(name: Option<string>, version: Option<string>, now: nat)
      modifies this`session
      ensures State() == Next(old(State()), Activity(name, version, now))
    {
      if token.None? || !accepting {
        return;
      }
      if name.Some? {
        session := session.(clientName := name);
      }
      if version.Some? {
        session := session.(clientVersion := version);
      }
      session := session.(lastSeen := Some(now));
    }

    method Close()
      modifies this
      ensures State() == Next(old(State()), AccessRules.Close)
    {
      token, accepting := None, false;
      ClearSession();
    }
  }
}
