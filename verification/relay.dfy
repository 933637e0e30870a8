/** The stdio relay: a loop over the client's lines, against a server that may answer anything. What it does is what
    `RelayLines` says of each line.
 */
module Relay {
  import opened Collections
  import opened JsonSchema
  import opened ToolSchemas
  import opened RelayTrace
  import opened RelayLines

  lemma Unanswered(c: Config, w: Watch, e: Event)
    requires Carried(e).Some? && !Expires(w, e) && !AnswersTo(Carried(e).value, e.response)
    ensures Advance(c, w, e) == w.(negotiated := false, posted := w.posted + 1)
  {
  }

  lemma Repeated(c: Config, w: Watch, e: Event)
    requires e.Posted? && e.post.ResumeInitialize?
    ensures var after := Advance(c, w, e);
            && after.negotiated == Negotiated(e.response) && after.posted == w.posted + 1
            && after.session == (if Negotiated(e.response) then e.response.issued else w.session)
            && after == w.(negotiated := after.negotiated, posted := after.posted, session := after.session,
                           issued := after.issued)
  {
  }

  lemma Completed(c: Config, w: Watch, e: Event)
    requires e.Posted? && e.post.ResumeReady? && w.negotiated
    ensures Advance(c, w, e) == w.(owes := w.owes && !Acknowledged(e.response), negotiated := false,
                                   posted := w.posted + 1)
  {
  }

  lemma Searched(c: Config, w: Watch, e: Event)
    requires e.Posted? && e.post.SchemaList?
    ensures Advance(c, w, e) == w.(negotiated := false, posted := w.posted + 1,
                                   definitions := if Discovered(c, e.response).Some? then
                                                    Discovered(c, e.response).value
                                                  else w.definitions)
  {
  }

  lemma Renewed(c: Config, w: Watch, e: Event)
    requires e.Taken? && Changes(w, e)
    ensures Advance(c, w, e) == w.(profile := e.profile.value, line := Some(e.index), ready := e.token,
                                   owes := w.saved.Some?, negotiated := false, session := None, issued := {},
                                   listed := 0, definitions := map[])
  {
  }

  lemma Unchanged(c: Config, w: Watch, e: Event)
    requires e.Taken? && !Changes(w, e)
    ensures Advance(c, w, e) == w.(line := Some(e.index), ready := e.profile.Some? && e.token, negotiated := false)
  {
  }

  lemma FailingAfter(outputs: seq<Event>, e: Event)
    ensures Failing(outputs + [e])
        <==> if e.Observed? && e.receipt != Started then e.receipt == FailedReceipt else Failing(outputs)
  {
    assert (outputs + [e])[..|outputs|] == outputs;
  }

  lemma NotReady(c: Config, w: Watch, i: nat, m: Message, idle: bool)
    requires !w.ready
    ensures Ends(c, w, m, idle).Failed? && Afterwards(c, w, i, m, idle) == w && Goes(c, w, i, m, idle) == []
    ensures MessageOutput(c, w, i, m, idle) == Refusal(i, m, idle)
  {
  }

  lemma Associates(a: seq<Event>, b: seq<Event>, c: seq<Event>)
    ensures a + b + c == a + (b + c)
  {
  }

  lemma NothingLogged(c: Config)
    ensures Faithful(c, [], Watched(c, []), [], []) && Watched(c, []).posted == 0
  {
  }

  class StdioRelay {
    const config: Config
    const schemas: DshToolSchemas

    var profile: Profile
    var session: Option<string>
    var version: bool
    var tools: nat
    var failed: bool
    var initialization: Option<string>
    var needsInitialize: bool
    var trace: seq<Event>
    var posts: nat

    ghost var watch: Watch
    ghost var outputs: seq<Event>
    ghost var sends: seq<Sent>

    /** The fields say what the watcher w worked out. */
    ghost predicate Agrees(w: Watch)
      reads this, schemas
    {
      && profile == w.profile && session == w.session && tools == w.listed
      && initialization == w.saved && needsInitialize == w.owes
      && (config.checks ==> schemas.validators == w.definitions)
    }

    ghost predicate Logged()
      reads this
    {
      Faithful(config, trace, watch, outputs, sends) && posts == watch.posted
    }

    /** The last event is this post, and the watcher knew that much before it. */
    ghost predicate JustPosted(e: Event, before: Watch)
      reads this
    {
      && e.Posted? && trace != [] && trace[|trace| - 1] == e
      && Watched(config, trace[..|trace| - 1]) == before
    }

    ghost predicate Valid()
      reads this, schemas
    {
      Agrees(watch) && Logged() && failed == Failing(outputs)
    }

    constructor (config: Config)
      ensures Valid() && fresh(schemas) && this.config == config
      ensures State() == Progress(Watched(config, []), [Observed(Started)], [])
    {
      this.config, profile := config, config.first;
      session, version, tools, failed, initialization, needsInitialize := None, false, 0, false, None, false;
      posts, trace := 0, [];
      watch, outputs, sends := Watched(config, []), [], [];
      schemas := new DshToolSchemas();
      new;
      NothingLogged(config);
      Mention(Started);
    }

    lemma SessionKnown()
      requires Logged()
      ensures watch.session.Some? ==> watch.session.value in watch.issued
    {
      SessionIsIssued(config, trace);
    }

    lemma OwedKnown()
      requires Logged()
      ensures watch.owes ==> watch.saved.Some?
    {
      OwedIsSaved(config, trace);
    }

    lemma PassedIsGenuine(before: Watch, e: Event, i: nat, message: Message, idle: bool)
      requires JustPosted(e, before) && e.post == PostOf(i, message, idle) && (idle ==> message == PING)
      requires Answered(before, e) && posts > 0
      ensures !idle ==> Genuine(config, trace, Replied(i, message.id, Passed(posts - 1)))
    {
    }

    method Log(e: Event)
      requires Faithful(config, trace, watch, outputs, sends) && Allowed(config, watch, e)
      requires Genuine(config, trace, e)
      modifies this`trace, this`watch, this`outputs, this`sends
      ensures Faithful(config, trace, watch, outputs, sends) && trace == old(trace) + [e]
      ensures watch == Advance(config, old(watch), e)
      ensures outputs == old(outputs) + OutputOf(e) && sends == old(sends) + SendOf(e)
    {
      FaithfulStep(config, trace, watch, outputs, sends, e);
      trace := trace + [e];
      watch, outputs, sends := Advance(config, watch, e), outputs + OutputOf(e), sends + SendOf(e);
    }

    method Mention(receipt: Receipt)
      requires Logged() && (receipt == ToolsRead ==> watch.listed > 0)
      modifies this`trace, this`watch, this`outputs, this`sends
      ensures Logged() && watch == old(watch) && sends == old(sends)
      ensures outputs == old(outputs) + [Observed(receipt)]
      ensures Failing(outputs) <==> if receipt != Started then receipt == FailedReceipt else Failing(old(outputs))
    {
      FailingAfter(outputs, Observed(receipt));
      Log(Observed(receipt));
    }

    method Answer(i: nat, id: Option<string>, answering: Answering)
      requires Logged() && watch.line == Some(i) && (answering.Passed? ==> answering.post + 1 == watch.posted)
      requires answering.Passed? ==> Genuine(config, trace, Replied(i, id, answering))
      modifies this`trace, this`watch, this`outputs, this`sends
      ensures Logged() && watch == old(watch) && sends == old(sends)
      ensures outputs == old(outputs) + [Replied(i, id, answering)] && Failing(outputs) == Failing(old(outputs))
    {
      FailingAfter(outputs, Replied(i, id, answering));
      Log(Replied(i, id, answering));
    }

    /** A post gets the next response of the world; what it means for the fields is left to the caller. */
    method Send(post: Post, header: Option<string>) returns (r: Response)
      requires Logged() && watch.ready && PostAllowed(config, watch, post)
      requires header.Some? ==> header.value in watch.issued
      requires watch.session.Some? ==> header == watch.session
      modifies this`trace, this`watch, this`outputs, this`sends, this`posts
      ensures Logged() && r == config.world.response(old(posts))
      ensures JustPosted(Posted(post, header, r), old(watch))
      ensures watch == Step(config, old(watch), post) == Advance(config, old(watch), Posted(post, header, r))
      ensures outputs == old(outputs)
      ensures sends == old(sends) + if post.FromClient? then [Sent(post.index, post.message)] else []
    {
      StepIsAdvance(config, watch, post, header);
      r := config.world.response(posts);
      Log(Posted(post, header, r));
      assert trace[..|trace| - 1] == old(trace);
      posts := posts + 1;
    }

    /** Takes up a line with the profile and the credential found now; a new service generation forgets the
        session, the tools and their definitions. */
    method Refresh(i: nat) returns (ready: bool)
      requires Valid() && (watch.line.Some? ==> watch.line.value < i)
      modifies this`profile, this`session, this`tools, this`needsInitialize, schemas
      modifies this`trace, this`watch, this`outputs, this`sends
      ensures Valid() && watch == TakenUp(config, old(watch), i) && sends == old(sends)
      ensures outputs == old(outputs) + TakenOutput(config, old(watch), i)
      ensures ready == watch.ready
    {
      hide Faithful, Failing;
      var latest, token := config.world.profile(i), config.world.token(i);
      var taken := Taken(i, latest, token);
      Log(taken);
      assert outputs == old(outputs) && sends == old(sends);
      if latest.Some? && latest.value != profile {
        Forget(latest.value, old(watch), taken);
      } else {
        Unchanged(config, old(watch), taken);
      }
      return latest.Some? && token;
    }

    /** What the relay knew of the service before it changed. */
    method Forget(latest: Profile, ghost before: Watch, ghost e: Event)
      requires Agrees(before) && Logged() && watch == Advance(config, before, e) && failed == Failing(outputs)
      requires e.Taken? && e.profile == Some(latest) && Changes(before, e)
      modifies this`profile, this`session, this`tools, this`needsInitialize, schemas
      modifies this`trace, this`watch, this`outputs, this`sends
      ensures Valid() && watch == old(watch) && sends == old(sends)
      ensures outputs == old(outputs) + [Observed(Started)]
    {
      hide Faithful, Failing;
      Renewed(config, before, e);
      profile, session, tools := latest, None, 0;
      needsInitialize := initialization.Some?;
      schemas.validators := map[];
      Mention(Started);
    }

    /** Repeats the initialization and takes the session it brings; header is what later posts carry. */
    method Negotiate() returns (r: Handled, header: Option<string>)
      requires Valid() && watch.ready && watch.owes && watch.saved.Some?
      modifies this`session, this`version, this`trace, this`watch, this`outputs, this`sends, this`posts
      ensures Valid() && outputs == old(outputs) && sends == old(sends)
      ensures watch == Step(config, old(watch), ResumeInitialize(old(watch).saved.value))
      ensures var response := config.world.response(old(posts));
              (r.Done? <==> Negotiated(response)) && (r.Crashed? <==> Fatal(response))
      ensures header.Some? ==> header.value in watch.issued
      ensures watch.session.Some? ==> header == watch.session
    {
      hide Faithful, Failing;
      SessionKnown();
      header := session;
      var resume := Send(ResumeInitialize(initialization.value), header);
      Repeated(config, old(watch), Posted(ResumeInitialize(initialization.value), header, resume));
      if !resume.Response? || Denied(resume) || resume.status >= 300 || resume.body.Unreadable? {
        return Failed, header;
      }
      if resume.body.NotAnObject? || Shapeless(resume.body) {
        return Crashed, header;
      }
      if resume.body.result.Missing? || !resume.body.result.protocolVersion {
        return Failed, header;
      }
      session, version := resume.issued, true;
      if session.Some? {
        header := session;
      }
      return Done, header;
    }

    /** Rebuilds the session; the client's message has not been sent yet. */
    method Resume() returns (r: Handled, header: Option<string>)
      requires Valid() && watch.ready && watch.owes
      modifies this`session, this`version, this`needsInitialize
      modifies this`trace, this`watch, this`outputs, this`sends, this`posts
      ensures Valid() && outputs == old(outputs) && sends == old(sends)
      ensures watch == Resumed(config, old(watch)) && watch.line == old(watch).line && watch.ready
      ensures r.Done? <==> Rebuilt(config, old(watch))
      ensures r.Done? <==> !watch.owes
      ensures r.Crashed? <==> Fatal(config.world.response(old(posts)))
      ensures header.Some? ==> header.value in watch.issued
      ensures watch.session.Some? ==> header == watch.session
    {
      hide Faithful, Failing;
      OwedKnown();
      r, header := Negotiate();
      Repeated(config, old(watch), Posted(ResumeInitialize(old(watch).saved.value), old(watch).session,
                                          config.world.response(old(posts))));
      if !r.Done? {
        return;
      }
      r := Complete(header);
    }

    /** The notification that ends a repeated initialization. */
    method Complete(header: Option<string>) returns (r: Handled)
      requires Valid() && watch.ready && watch.owes && watch.negotiated
      requires header.Some? ==> header.value in watch.issued
      requires watch.session.Some? ==> header == watch.session
      modifies this`needsInitialize, this`trace, this`watch, this`outputs, this`sends, this`posts
      ensures Valid() && outputs == old(outputs) && sends == old(sends)
      ensures watch == Step(config, old(watch), ResumeReady)
      ensures watch == old(watch).(owes := !r.Done?, negotiated := false, posted := old(watch).posted + 1)
      ensures r == if Acknowledged(config.world.response(old(posts))) then Done else Failed
    {
      hide Faithful, Failing;
      var ready := Send(ResumeReady, header);
      Completed(config, old(watch), Posted(ResumeReady, header, ready));
      if !ready.Response? || ready.status >= 300 {
        return Failed;
      }
      needsInitialize := false;
      return Done;
    }

    /** Adapts a list of tools; the definitions are replaced exactly when all of them can be adapted. */
    method Adapt(list: ToolList) returns (ok: bool)
      requires config.checks
      modifies schemas
      ensures ok <==> Definitions(config, list).Some?
      ensures schemas.validators == if ok then Definitions(config, list).value else old(schemas.validators)
    {
      if list.NotAList? {
        return false;
      }
      var given := if list.ToolsOf? then list.tools else [];
      var shown := schemas.Adapt(config.checked, given);
      assert Originals([]) == map[];
      return shown.Some?;
    }

    /** Asks for the list of tools the calls are checked against. */
    method ReadDefinitions(header: Option<string>) returns (ok: bool)
      requires Valid() && config.checks && watch.ready && !watch.owes && watch.definitions == map[]
      requires header.Some? ==> header.value in watch.issued
      requires watch.session.Some? ==> header == watch.session
      modifies this`trace, this`watch, this`outputs, this`sends, this`posts, schemas
      ensures Valid() && outputs == old(outputs) && sends == old(sends)
      ensures watch == Step(config, old(watch), SchemaList)
      ensures watch == old(watch).(negotiated := false, posted := old(watch).posted + 1,
                                   definitions := watch.definitions)
      ensures ok <==> Found(config, old(watch)).Some?
      ensures ok ==> Found(config, old(watch)) == Some(watch.definitions)
    {
      hide Faithful, Failing;
      var discovery := Send(SchemaList, header);
      Searched(config, old(watch), Posted(SchemaList, header, discovery));
      if !discovery.Response? || Denied(discovery) || discovery.body.Unreadable? || discovery.body.NotAnObject? {
        return false;
      }
      if Shapeless(discovery.body) {
        return false;
      }
      ok := Adapt(ResponseTools(discovery.body));
    }

    /** Reads the definitions when there are none, then checks the call. */
    method CheckCall(message: Message, header: Option<string>) returns (r: Handled, rejected: bool)
      requires Valid() && Checks(config, message) && watch.ready && !watch.owes
      requires header.Some? ==> header.value in watch.issued
      requires watch.session.Some? ==> header == watch.session
      modifies this`trace, this`watch, this`outputs, this`sends, this`posts, schemas
      ensures Valid() && outputs == old(outputs) && sends == old(sends)
      ensures watch == Checked(config, old(watch), message)
      ensures watch.line == old(watch).line && watch.ready && !watch.owes && watch.session == old(watch).session
      ensures watch.issued == old(watch).issued
      ensures r == if Found(config, old(watch)).None? then Failed else if !message.shape.Object? then Crashed else Done
      ensures r.Done? ==> (rejected <==> !Admits(config, old(watch), message))
      ensures r.Done? ==> Found(config, old(watch)) == Some(watch.definitions)
    {
      hide Faithful, Failing;
      if schemas.validators == map[] {
        var ok := ReadDefinitions(header);
        if !ok {
          return Failed, false;
        }
      }
      if !message.shape.Object? {
        return Crashed, false;
      }
      return Done, !(message.tool.Some? && message.tool.value in schemas.validators
                     && config.valid(schemas.validators[message.tool.value], message.arguments));
    }

    /** Posts the message and deals with the response. */
    method Forward(i: nat, message: Message, idle: bool, header: Option<string>) returns (r: Handled)
      requires Valid() && (idle ==> message == PING) && watch.ready && watch.line == Some(i)
      requires header.Some? ==> header.value in watch.issued
      requires watch.session.Some? ==> header == watch.session
      requires PostAllowed(config, watch, PostOf(i, message, idle))
      modifies this, schemas
      ensures Valid() && watch == Step(config, old(watch), PostOf(i, message, idle)) && watch.line == Some(i)
      ensures r == Verdict(config, old(watch), message, idle, config.world.response(old(posts)))
      ensures outputs == old(outputs)
                         + Received(config, old(watch), i, message, idle, config.world.response(old(posts)))
      ensures sends == old(sends) + if idle then [] else [Sent(i, message)]
    {
      hide Faithful, Failing;
      ghost var before := watch;
      var post := PostOf(i, message, idle);
      var response := Send(post, header);
      r := Receive(i, message, idle, response, before, Posted(post, header, response));
    }

    /** Brings the fields up to what the response e to a message says, as the watcher did, and passes it on. */
    method Receive(i: nat, message: Message, idle: bool, response: Response, ghost before: Watch, ghost e: Event)
      returns (r: Handled)
      requires Agrees(before) && Logged() && failed == Failing(outputs)
      requires watch == Advance(config, before, e) && watch.line == Some(i)
      requires JustPosted(e, before) && e.post == PostOf(i, message, idle) && e.response == response
      requires idle ==> message == PING
      modifies this, schemas
      ensures Valid() && watch == old(watch) && sends == old(sends)
      ensures r == Verdict(config, before, message, idle, response)
      ensures outputs == old(outputs) + Received(config, before, i, message, idle, response)
    {
      hide Faithful, Failing;
      if !response.Response? || Denied(response) {
        return Failed;
      }
      if response.status == 404 && session.Some? {
        session := None;
        needsInitialize := initialization.Some?;
        return Failed;
      }
      if message.id.None? {
        Unanswered(config, before, e);
        r := Notified(message, response);
        return;
      }
      if !response.body.Reply? || response.body.id != message.id || !response.body.current {
        Unanswered(config, before, e);
        return Failed;
      }
      r := Accept(i, message, idle, response, before, e);
    }

    /** A notification gets no answer. */
    method Notified(message: Message, response: Response) returns (r: Handled)
      requires Logged() && response.Response? && failed == Failing(outputs)
      modifies this`failed, this`trace, this`watch, this`outputs, this`sends
      ensures Logged() && failed == Failing(outputs) && watch == old(watch) && sends == old(sends)
      ensures r == if response.status >= 300 then Failed else Done
      ensures outputs == old(outputs)
                         + if r.Done? && message.kind == Initialized then [Observed(Connected)] else []
    {
      hide Faithful, Failing;
      if response.status >= 300 {
        return Failed;
      }
      if message.kind == Initialized {
        Mention(Connected);
        failed := false;
      }
      return Done;
    }

    /** The reply to a message: what it says is kept, and the client gets it. */
    method Accept(i: nat, message: Message, idle: bool, response: Response, ghost before: Watch, ghost e: Event)
      returns (r: Handled)
      requires Agrees(before) && Logged() && failed == Failing(outputs)
      requires watch == Advance(config, before, e) && watch.line == Some(i)
      requires JustPosted(e, before) && e.post == PostOf(i, message, idle) && e.response == response
      requires Answered(before, e) && (idle ==> message == PING)
      modifies this, schemas
      ensures Valid() && watch == old(watch) && sends == old(sends)
      ensures r == Verdict(config, before, message, idle, response)
      ensures outputs == old(outputs) + Received(config, before, i, message, idle, response)
    {
      hide Faithful, Failing;
      r := Remember(message, response, before, e);
      if !r.Done? {
        return;
      }
      if idle && (response.status >= 300 || response.body.error || !response.body.result.Outcome?) {
        return Failed;
      }
      r := Pass(i, message, idle, response, before, e);
    }

    /** The reply is passed on before its result is counted. */
    method Pass(i: nat, message: Message, idle: bool, response: Response, ghost before: Watch, ghost e: Event)
      returns (r: Handled)
      requires Agrees(watch.(listed := before.listed)) && Logged() && failed == Failing(outputs)
      requires watch == Advance(config, before, e) && watch.line == Some(i)
      requires JustPosted(e, before) && e.post == PostOf(i, message, idle) && e.response == response
      requires Answered(before, e) && (idle ==> message == PING) && !Unadaptable(config, message, response.body)
      modifies this`tools, this`failed, this`trace, this`watch, this`outputs, this`sends
      ensures Valid() && watch == old(watch) && sends == old(sends)
      ensures r == if message.kind == ToolsList && Shapeless(response.body) then Crashed else Done
      ensures outputs == old(outputs) + Delivered(before, i, message, idle)
                         + if r.Done? then Counted(message, response.body) else []
    {
      hide Faithful, Failing;
      PassedIsGenuine(before, e, i, message, idle);
      Deliver(i, message, idle, before);
      if message.kind == ToolsList && Shapeless(response.body) {
        return Crashed;
      }
      Count(message, response.body);
      return Done;
    }

    /** What the relay keeps of a reply: the session, an accepted initialization, the tool definitions. */
    method Remember(message: Message, reply: Response, ghost before: Watch, ghost e: Event) returns (r: Handled)
      requires Agrees(before) && watch == Advance(config, before, e)
      requires Answered(before, e) && Carried(e) == Some(message) && e.response == reply
      modifies this`session, this`version, this`initialization, this`needsInitialize, schemas
      ensures Agrees(watch.(listed := before.listed))
      ensures r == if message.kind == Initialize && Shapeless(reply.body) then Crashed
                   else if Unadaptable(config, message, reply.body) then Failed
                   else Done
    {
      if reply.issued.Some? {
        session := reply.issued;
      }
      if message.kind == Initialize && !reply.body.result.Missing? {
        if !reply.body.result.Outcome? {
          return Crashed;
        }
        version, initialization := reply.body.result.protocolVersion, Some(message.params);
        needsInitialize := false;
      }
      r := Done;
      if config.checks && message.kind == ToolsList {
        r := AdaptReply(reply.body);
      }
    }

    /** The tools of a reply, if its result mentions any. */
    method AdaptReply(body: Body) returns (r: Handled)
      requires config.checks && body.Reply?
      modifies schemas
      ensures r == match body.result
                   case Missing => Done
                   case Scalar => Failed
                   case Sequence(mentions) => if mentions then Failed else Done
                   case Outcome(_, tools) => if !tools.Absent? && Definitions(config, tools).None? then Failed else Done
      ensures schemas.validators == if body.result.Outcome? && !body.result.tools.Absent? && r.Done?
                                    then Definitions(config, body.result.tools).value
                                    else old(schemas.validators)
    {
      match body.result {
        case Missing => return Done;
        case Scalar => return Failed;
        case Sequence(mentions) => return if mentions then Failed else Done;
        case Outcome(_, tools) =>
          if tools.Absent? {
            return Done;
          }
          var ok := Adapt(tools);
          return if ok then Done else Failed;
      }
    }

    /** The client gets the reply to its message; a ping of the relay's own confirms the connection. */
    method Deliver(i: nat, message: Message, idle: bool, ghost before: Watch)
      requires Logged() && failed == Failing(outputs) && message.id.Some? && watch.line == Some(i)
      requires posts > 0 && (!idle ==> Genuine(config, trace, Replied(i, message.id, Passed(posts - 1))))
      requires tools == before.listed && (idle ==> watch.listed == before.listed) && watch.posted == before.posted + 1
      modifies this`failed, this`trace, this`watch, this`outputs, this`sends
      ensures Logged() && failed == Failing(outputs) && sends == old(sends) && watch == old(watch)
      ensures outputs == old(outputs) + Delivered(before, i, message, idle)
    {
      hide Faithful, Failing;
      if idle {
        Confirm();
      } else {
        Answer(i, message.id, Passed(posts - 1));
      }
    }

    /** The service is there; a ping never reports tools that were not listed. */
    method Confirm()
      requires Logged() && tools == watch.listed
      modifies this`failed, this`trace, this`watch, this`outputs, this`sends
      ensures Logged() && failed == Failing(outputs) && sends == old(sends) && watch == old(watch)
      ensures outputs == old(outputs) + [Observed(if watch.listed > 0 then ToolsRead else Connected)]
    {
      hide Faithful, Failing;
      Mention(if tools > 0 then ToolsRead else Connected);
      failed := false;
    }

    method Count(message: Message, body: Body)
      requires Logged() && failed == Failing(outputs)
      requires message.kind == ToolsList && ResponseTools(body).ToolsOf? ==> watch.listed == |ResponseTools(body).tools|
      modifies this`failed, this`tools, this`trace, this`watch, this`outputs, this`sends
      ensures Logged() && failed == Failing(outputs) && watch == old(watch) && sends == old(sends)
      ensures outputs == old(outputs) + Counted(message, body)
      ensures tools == if message.kind == ToolsList && ResponseTools(body).ToolsOf? then watch.listed else old(tools)
    {
      hide Faithful, Failing;
      if message.kind == ToolsList && ResponseTools(body).ToolsOf? {
        tools := |ResponseTools(body).tools|;
        Mention(if tools > 0 then ToolsRead else FailedReceipt);
        failed := tools == 0;
      } else if message.kind == ToolsCall && body.Reply? && !body.result.Missing? {
        Mention(RequestAccepted);
        failed := false;
      }
    }

    /** The message once no session is owed, after the check of a call. */
    method Dispatch(i: nat, message: Message, idle: bool, header: Option<string>) returns (r: Handled)
      requires Valid() && (idle ==> message == PING) && watch.ready && watch.line == Some(i)
      requires !Waits(watch, message)
      requires header.Some? ==> header.value in watch.issued
      requires watch.session.Some? ==> header == watch.session
      modifies this, schemas
      ensures Valid() && watch == SessionAfterwards(config, old(watch), i, message, idle) && watch.line == Some(i)
      ensures r == SessionEnds(config, old(watch), message, idle)
      ensures outputs == old(outputs) + SessionOutput(config, old(watch), i, message, idle)
      ensures sends == old(sends) + SessionSends(config, old(watch), i, message, idle)
    {
      hide Faithful, Failing;
      if config.checks && message.kind == ToolsCall {
        var rejected;
        r, rejected := CheckCall(message, header);
        if !r.Done? {
          return;
        }
        if rejected {
          Answer(i, message.id, InvalidArguments);
          return;
        }
      }
      r := Forward(i, message, idle, header);
    }

    /** The message after a session that is owed. */
    method ResumeFirst(i: nat, message: Message, idle: bool) returns (r: Handled)
      requires Valid() && (idle ==> message == PING) && watch.ready && watch.line == Some(i)
      requires Waits(watch, message) && !Discovers(config, message) && !message.shape.MetaNotObject?
      modifies this, schemas
      ensures Valid() && watch == Afterwards(config, old(watch), i, message, idle) && watch.line == Some(i)
      ensures r == Ends(config, old(watch), message, idle)
      ensures outputs == old(outputs) + Output(config, old(watch), i, message, idle)
      ensures sends == old(sends) + Goes(config, old(watch), i, message, idle)
    {
      hide Faithful, Failing;
      var header;
      r, header := Resume();
      if !r.Done? {
        return;
      }
      r := Dispatch(i, message, idle, header);
    }

    /** One line with a credential at hand: a client whose calls are checked is told here that it has to negotiate
        the older protocol; then the session comes first, the check of a call, and the message. */
    method Serve(i: nat, message: Message, idle: bool) returns (r: Handled)
      requires Valid() && (idle ==> message == PING) && watch.ready && watch.line == Some(i)
      modifies this, schemas
      ensures Valid() && watch == Afterwards(config, old(watch), i, message, idle) && watch.line == Some(i)
      ensures r == Ends(config, old(watch), message, idle)
      ensures outputs == old(outputs) + Output(config, old(watch), i, message, idle)
      ensures sends == old(sends) + Goes(config, old(watch), i, message, idle)
    {
      hide Faithful, Failing;
      if config.checks && message.kind == Discover {
        Answer(i, message.id, Unsupported);
        return Done;
      }
      if message.shape.MetaNotObject? {
        return Crashed;
      }
      if needsInitialize && message.kind != Initialize {
        r := ResumeFirst(i, message, idle);
      } else {
        SessionKnown();
        r := Dispatch(i, message, idle, session);
      }
    }

    /** The reply to a message that could not be dealt with. */
    method Refuse(i: nat, message: Message, idle: bool)
      requires Logged() && watch.line == Some(i)
      modifies this`failed, this`trace, this`watch, this`outputs, this`sends
      ensures Logged() && failed == Failing(outputs) && sends == old(sends) && watch == old(watch)
      ensures outputs == old(outputs) + Refusal(i, message, idle)
    {
      hide Faithful, Failing;
      failed := true;
      Mention(FailedReceipt);
      if message.id.Some? && !idle {
        Answer(i, message.id, Refused);
      }
    }

    /** The message of a line that has been taken up. */
    method Finish(i: nat, message: Message, idle: bool, ready: bool) returns (ok: bool)
      requires Valid() && (idle ==> message == PING) && watch.line == Some(i) && ready == watch.ready
      modifies this, schemas
      ensures Valid() && watch == Afterwards(config, old(watch), i, message, idle) && watch.line == Some(i)
      ensures ok <==> !Ends(config, old(watch), message, idle).Crashed?
      ensures outputs == old(outputs) + MessageOutput(config, old(watch), i, message, idle)
      ensures sends == old(sends) + Goes(config, old(watch), i, message, idle)
    {
      hide Faithful, Failing;
      if !ready {
        NotReady(config, watch, i, message, idle);
        Refuse(i, message, idle);
        return true;
      }
      ghost var w, done := watch, Output(config, watch, i, message, idle);
      var r := Serve(i, message, idle);
      if r.Failed? {
        Refuse(i, message, idle);
        Associates(old(outputs), done, Refusal(i, message, idle));
      } else {
        Associates(old(outputs), done, []);
      }
      return !r.Crashed?;
    }

    /** One line of the client, or one idle interval: false means that the relay breaks down. */
    method Handle(i: nat, message: Message, idle: bool) returns (ok: bool)
      requires Valid() && (idle ==> message == PING) && (watch.line.Some? ==> watch.line.value < i)
      modifies this, schemas
      ensures Valid() && watch.line == Some(i)
      ensures watch == Afterwards(config, TakenUp(config, old(watch), i), i, message, idle)
      ensures ok <==> !Dies(config, TakenUp(config, old(watch), i), message)
      ensures outputs == old(outputs) + AskedOutput(config, old(watch), i, message, idle)
      ensures sends == old(sends) + Goes(config, TakenUp(config, old(watch), i), i, message, idle)
    {
      hide Faithful, Failing;
      var ready := Refresh(i);
      CrashesExactly(config, watch, message, idle);
      Associates(old(outputs), TakenOutput(config, old(watch), i), MessageOutput(config, watch, i, message, idle));
      ok := Finish(i, message, idle, ready);
    }

    /** One line of input; None if the relay goes on. */
    method Deal(line: Line, i: nat) returns (ending: Option<Ending>)
      requires Valid() && (watch.line.Some? ==> watch.line.value < i)
      modifies this, schemas
      ensures Logged() && (ending.None? ==> Valid() && (watch.line.Some? ==> watch.line.value <= i))
      ensures ending == Stops(config, old(watch), i, line)
      ensures State() == Continued(old(State()), LineDealt(config, old(watch), i, line))
    {
      hide Faithful, Failing;
      if line.TooLong? || line.Garbage? {
        Mention(FailedReceipt);
        return Some(Malformed);
      }
      if line.Idle? && initialization.None? {
        return None;
      }
      var ok := Handle(i, if line.Idle? then PING else line.message, line.Idle?);
      return if ok then None else Some(Broken);
    }

    ghost function State(): Progress
      reads this
    {
      Progress(watch, outputs, sends)
    }

    method DealNext(lines: seq<Line>, i: nat) returns (ending: Option<Ending>)
      requires Valid() && (watch.line.Some? ==> watch.line.value < i) && i < |lines|
      requires State() == ProgressAt(Stdio(config), lines, i) && GoesOn(Stdio(config), lines, i)
      modifies this, schemas
      ensures Logged() && (ending.None? ==> Valid() && (watch.line.Some? ==> watch.line.value <= i))
      ensures State() == ProgressAt(Stdio(config), lines, i + 1)
      ensures ending.None? ==> GoesOn(Stdio(config), lines, i + 1)
      ensures ending.Some? ==> EndsAt(Stdio(config), lines, i) && ending.value == EndingAt(Stdio(config), lines, i)
    {
      hide Faithful, Failing;
      ending := Deal(lines[i], i);
    }

    method Loop(lines: seq<Line>) returns (handled: nat, ending: Ending)
      requires Valid() && watch.line.None? && State() == ProgressAt(Stdio(config), lines, 0)
      modifies this, schemas
      ensures Logged() && handled <= |lines| && EndsAt(Stdio(config), lines, handled)
      ensures ending == EndingAt(Stdio(config), lines, handled)
      ensures if handled < |lines| then State() == ProgressAt(Stdio(config), lines, handled + 1)
              else Valid() && State() == ProgressAt(Stdio(config), lines, |lines|)
    {
      hide Faithful, Failing, Stdio;
      for i := 0 to |lines|
        invariant Valid() && (watch.line.Some? ==> watch.line.value < i)
        invariant State() == ProgressAt(Stdio(config), lines, i) && GoesOn(Stdio(config), lines, i)
      {
        var end := DealNext(lines, i);
        if end.Some? {
          return i, end.value;
        }
      }
      return |lines|, EndOfInput;
    }

    /** The loop over the input; handled is the number of lines dealt with when it ends. */
    method Run(lines: seq<Line>) returns (handled: nat, ending: Ending)
      requires Valid() && State() == Progress(Watched(config, []), [Observed(Started)], [])
      modifies this, schemas
      ensures Safe(config, trace)
      ensures handled <= |lines| && EndsAt(Stdio(config), lines, handled)
      ensures ending == EndingAt(Stdio(config), lines, handled)
      ensures Outputs(trace) == WholeOutput(Stdio(config), lines, handled)
      ensures Sends(trace) == WholeSent(Stdio(config), lines, handled)
    {
      hide Failing, GoesOn, Genuine, Allowed, Step;
      handled, ending := Loop(lines);
      if handled == |lines| && !failed {
        Mention(Disconnected);
      }
    }
  }
}
