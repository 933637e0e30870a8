/** What the stdio relay does, as a trace of what it found and did, and what a watcher of the trace can tell.

    The trace holds the profile and the credential found at each line, and each post with the response it got.
    Everything else, from a changed service generation to an accepted initialization or a list of tools, the
    watcher works out from these.
 */
module RelayTrace {
  import opened Collections
  import opened JsonSchema
  import opened SchemaProjection
  import opened SchemaPreservation
  import opened ToolSchemas

  datatype Kind = Initialize | Initialized | ToolsList | ToolsCall | Discover | Other(name: string)

  /** The parameters of a message: an object, one whose `_meta` is not an object itself, or no object at all. */
  datatype Shape = Object | MetaNotObject | NotObject

  /** A request or notification of the client; params is the part an initialization is repeated with. */
  datatype Message = Message(id: Option<string>, kind: Kind, shape: Shape, params: string, tool: Option<Word>,
                             arguments: Value)

  datatype Line = Idle | TooLong | Garbage | Text(message: Message)

  datatype Profile = Profile(generation: int, endpoint: string)

  datatype Post =
    | FromClient(index: nat, message: Message)
    | IdlePing
    | ResumeInitialize(params: string)
    | ResumeReady
    | SchemaList

  /** The tools member of a result: absent, an empty string or dictionary, something else that is not a list of
      tools, or a list. */
  datatype ToolList = Absent | Empty | NotAList | ToolsOf(tools: seq<Tool>)

  /** The result of a reply: missing; null, a number or a truth value; a string or list, which can mention `tools`;
      or an object. */
  datatype Result = Missing | Scalar | Sequence(mentions: bool) | Outcome(protocolVersion: bool, tools: ToolList)

  datatype Body =
    | Unreadable
    | NotAnObject
    | Reply(id: Option<string>, current: bool, result: Result, error: bool)

  datatype Response =
    | ConnectTimeout
    | ReadTimeout
    | RequestError
    | Response(status: int, issued: Option<string>, body: Body)

  /** What the relay cannot decide: the profile and the credential at each line, and the response to each post. */
  datatype World = World(profile: nat -> Option<Profile>, token: nat -> bool, response: nat -> Response)

  /** A relay: its surroundings, whether it checks the calls of its client, which documents are schemas, the
      verdict of a schema, and the profile it starts with. */
  datatype Config = Config(world: World, checks: bool, checked: Doc -> bool, valid: (Doc, Value) -> bool,
                           first: Profile)

  datatype Receipt = Started | Connected | ToolsRead | RequestAccepted | FailedReceipt | Disconnected

  /** What the client gets for a message: the response to a post, an error about the arguments of a call, an error
      that a method is not supported, or an error that the message could not be dealt with. */
  datatype Answering = Passed(post: nat) | InvalidArguments | Unsupported | Refused

  datatype Event =
    | Taken(index: nat, profile: Option<Profile>, token: bool)
    | Posted(post: Post, session: Option<string>, response: Response)
    | Replied(index: nat, id: Option<string>, answering: Answering)
    | Observed(receipt: Receipt)

  const PING := Message(Some("jiejian-idle-ping"), Other("ping"), Object, "", None, Null)

  // ---------------------------------------------------------------------------------------------
  // Responses

  predicate Denied(r: Response) {
    r.Response? && (r.status == 401 || r.status == 403)
  }

  function ResponseTools(body: Body): ToolList {
    if body.Reply? && body.result.Outcome? then body.result.tools else Absent
  }

  /** A result that is not an object; a missing one reads as an empty object. */
  predicate Shapeless(body: Body) {
    body.Reply? && (body.result.Scalar? || body.result.Sequence?)
  }

  /** The definitions a response to the relay's own request for the list of tools brings. */
  function Discovered(c: Config, r: Response): Option<map<Word, Doc>> {
    if r.Response? && !Denied(r) && r.body.Reply? && !Shapeless(r.body) then Definitions(c, ResponseTools(r.body))
    else None
  }

  /** The reply to a message that carries an id. */
  predicate AnswersTo(m: Message, r: Response) {
    m.id.Some? && r.Response? && !Denied(r) && r.body.Reply? && r.body.id == m.id && r.body.current
  }

  /** An accepted repetition of the initialization, and of the notification after it. */
  predicate Negotiated(r: Response) {
    && r.Response? && !Denied(r) && r.status < 300
    && r.body.Reply? && r.body.result.Outcome? && r.body.result.protocolVersion
  }

  predicate Acknowledged(r: Response) {
    r.Response? && r.status < 300
  }

  /** The definitions a list of tools stands for; None if it cannot be adapted. */
  function Definitions(c: Config, list: ToolList): Option<map<Word, Doc>> {
    match list
    case Absent => Some(map[])
    case Empty => Some(map[])
    case NotAList => None
    case ToolsOf(tools) => if AllAdaptable(c.checked, BUDGET, tools) then Some(Originals(tools)) else None
  }

  // ---------------------------------------------------------------------------------------------
  // The watcher

  /** What the events so far amount to: the profile in force, the line being dealt with and whether it can be,
      the initialization saved, whether it has to be repeated before anything else and whether the first half of
      that is done, the session in force and those the service issued, the tools listed and the definitions in
      force for this generation of the service, and the number of posts. */
  datatype Watch = Watch(profile: Profile, line: Option<nat>, ready: bool, saved: Option<string>, owes: bool,
                         negotiated: bool, session: Option<string>, issued: set<string>, listed: nat,
                         definitions: map<Word, Doc>, posted: nat)

  /** The client's message, or the relay's own ping, that a post carries. */
  function Carried(e: Event): Option<Message> {
    if !e.Posted? then None
    else match e.post
      case FromClient(_, m) => Some(m)
      case IdlePing => Some(PING)
      case _ => None
  }

  /** The service generation or endpoint is another one. */
  predicate Changes(w: Watch, e: Event) {
    e.Taken? && e.profile.Some? && e.profile.value != w.profile
  }

  /** The service no longer knows the session. */
  predicate Expires(w: Watch, e: Event) {
    Carried(e).Some? && e.response.Response? && e.response.status == 404 && w.session.Some?
  }

  predicate Answered(w: Watch, e: Event) {
    Carried(e).Some? && !Expires(w, e) && AnswersTo(Carried(e).value, e.response)
  }

  /** An initialization of the client is accepted. */
  predicate Saves(w: Watch, e: Event) {
    Answered(w, e) && Carried(e).value.kind == Initialize && e.response.body.result.Outcome?
  }

  /** A repeated initialization is accepted, both halves of it. */
  predicate Resumes(w: Watch, e: Event) {
    e.Posted? && e.post.ResumeReady? && w.negotiated && Acknowledged(e.response)
  }

  predicate Renegotiates(e: Event) {
    e.Posted? && e.post.ResumeInitialize? && Negotiated(e.response)
  }

  /** The session a response brings. */
  function Issues(w: Watch, e: Event): Option<string> {
    if Renegotiates(e) || Answered(w, e) then e.response.issued else None
  }

  /** The definitions a response brings, to a client whose calls are checked. */
  function Adapts(c: Config, w: Watch, e: Event): Option<map<Word, Doc>> {
    if e.Posted? && e.post.SchemaList? then Discovered(c, e.response)
    else if Answered(w, e) && c.checks && Carried(e).value.kind == ToolsList && !ResponseTools(e.response.body).Absent?
    then Definitions(c, ResponseTools(e.response.body))
    else None
  }

  /** The number of tools the client is given. */
  function Lists(c: Config, w: Watch, e: Event): Option<nat> {
    if && Answered(w, e) && Carried(e).value.kind == ToolsList && ResponseTools(e.response.body).ToolsOf?
       && (c.checks ==> Adapts(c, w, e).Some?)
    then Some(|ResponseTools(e.response.body).tools|)
    else None
  }

  function SessionAfter(w: Watch, e: Event): Option<string> {
    if Changes(w, e) || Expires(w, e) then None
    else if Renegotiates(e) || Issues(w, e).Some? then Issues(w, e)
    else w.session
  }

  function IssuedAfter(w: Watch, e: Event): set<string> {
    if Changes(w, e) || Expires(w, e) then {}
    else if Issues(w, e).Some? then w.issued + {Issues(w, e).value}
    else w.issued
  }

  function OwesAfter(w: Watch, e: Event): bool {
    if Changes(w, e) || Expires(w, e) then w.saved.Some?
    else w.owes && !Saves(w, e) && !Resumes(w, e)
  }

  function Advance(c: Config, w: Watch, e: Event): Watch {
    Watch(
      if Changes(w, e) then e.profile.value else w.profile,
      if e.Taken? then Some(e.index) else w.line,
      if e.Taken? then e.profile.Some? && e.token else w.ready,
      if Saves(w, e) then Some(Carried(e).value.params) else w.saved,
      OwesAfter(w, e),
      if e.Taken? || e.Posted? then Renegotiates(e) else w.negotiated,
      SessionAfter(w, e),
      IssuedAfter(w, e),
      if Changes(w, e) then 0 else if Lists(c, w, e).Some? then Lists(c, w, e).value else w.listed,
      if Changes(w, e) then map[] else if Adapts(c, w, e).Some? then Adapts(c, w, e).value else w.definitions,
      if e.Posted? then w.posted + 1 else w.posted)
  }

  function Watched(c: Config, t: seq<Event>): Watch {
    if t == [] then Watch(c.first, None, false, None, false, false, None, {}, 0, map[], 0)
    else Advance(c, Watched(c, t[..|t| - 1]), t[|t| - 1])
  }

  /** The watcher before event k. */
  function Before(c: Config, t: seq<Event>, k: nat): Watch
    requires k <= |t|
  {
    Watched(c, t[..k])
  }

  // ---------------------------------------------------------------------------------------------
  // The rules

  predicate CallFits(valid: (Doc, Value) -> bool, definitions: map<Word, Doc>, m: Message) {
    m.shape.Object? && m.tool.Some? && m.tool.value in definitions && valid(definitions[m.tool.value], m.arguments)
  }

  /** A client message other than `initialize` waits for a session that is owed, an initialization is repeated as
      it was saved and completed only after it was accepted, and a tool call fits the definitions in force. */
  predicate PostAllowed(c: Config, w: Watch, post: Post) {
    match post
    case FromClient(i, m) =>
      && w.line == Some(i)
      && (m.kind != Initialize ==> !w.owes)
      && (c.checks && m.kind == ToolsCall ==> CallFits(c.valid, w.definitions, m))
    case IdlePing => !w.owes
    case ResumeInitialize(params) => w.owes && w.saved == Some(params)
    case ResumeReady => w.owes && w.negotiated
    case SchemaList => c.checks && !w.owes && w.definitions == map[]
  }

  /** Lines are taken in order, each with the profile and the credential found then; the n-th post gets the n-th
      response, goes out only with a profile and a credential, and carries the session in force and no other than
      one this generation issued; replies are for the line being dealt with, and a response that is passed on is that
      to the last post; and tools are reported read only when some were listed. */
  predicate Allowed(c: Config, w: Watch, e: Event) {
    match e
    case Taken(i, profile, token) =>
      (w.line.Some? ==> w.line.value < i) && profile == c.world.profile(i) && token == c.world.token(i)
    case Posted(post, session, response) =>
      && w.ready && response == c.world.response(w.posted)
      && (session.Some? ==> session.value in w.issued) && (w.session.Some? ==> session == w.session)
      && PostAllowed(c, w, post)
    case Replied(i, _, answering) => w.line == Some(i) && (answering.Passed? ==> answering.post + 1 == w.posted)
    case Observed(receipt) => receipt == ToolsRead ==> w.listed > 0
  }

  /** The response is a reply to the request with this id: a readable JSON-RPC 2.0 object that carries the id, and
      no denial. */
  predicate IsReply(r: Response, id: Option<string>) {
    && id.Some? && r.Response? && r.status != 401 && r.status != 403
    && r.body.Reply? && r.body.id == id && r.body.current
  }

  /** A response is passed on straight after the post of the line's own message, with the id of that message, if it
      is the reply to it and does not say that the session is unknown. */
  predicate Genuine(c: Config, t: seq<Event>, e: Event) {
    e.Replied? && e.answering.Passed? ==>
      && t != []
      && var n := |t| - 1;
         && t[n].Posted? && t[n].post.FromClient? && t[n].post.index == e.index && t[n].post.message.id == e.id
         && IsReply(t[n].response, e.id)
         && (t[n].response.status == 404 ==> Watched(c, t[..n]).session.None?)
  }

  /** Every event is allowed where it stands, and what is passed on is genuine. */
  predicate Safe(c: Config, t: seq<Event>) {
    t == []
    || (Safe(c, t[..|t| - 1]) && Allowed(c, Watched(c, t[..|t| - 1]), t[|t| - 1])
        && Genuine(c, t[..|t| - 1], t[|t| - 1]))
  }

  lemma SafeStep(c: Config, t: seq<Event>, e: Event)
    requires Safe(c, t) && Allowed(c, Watched(c, t), e) && Genuine(c, t, e)
    ensures Safe(c, t + [e]) && Watched(c, t + [e]) == Advance(c, Watched(c, t), e)
  {
    assert (t + [e])[..|t|] == t;
  }

  /** Each event of a safe trace is allowed after the events before it. */
  lemma {:induction false} SafeAt(c: Config, t: seq<Event>, j: nat)
    requires Safe(c, t) && j < |t|
    ensures Allowed(c, Before(c, t, j), t[j])
    decreases |t|
  {
    if j < |t| - 1 {
      SafeAt(c, t[..|t| - 1], j);
      EarlierWatch(c, t, j);
    }
  }

  lemma {:induction false} GenuineAt(c: Config, t: seq<Event>, j: nat)
    requires Safe(c, t) && j < |t|
    ensures Genuine(c, t[..j], t[j])
    decreases |t|
  {
    if j < |t| - 1 {
      GenuineAt(c, t[..|t| - 1], j);
      assert t[..|t| - 1][..j] == t[..j];
    }
  }

  // ---------------------------------------------------------------------------------------------
  // What the client sees

  datatype Answer = Answer(index: nat, id: string)

  function AnswerOf(e: Event): seq<Answer> {
    if e.Replied? && e.id.Some? then [Answer(e.index, e.id.value)] else []
  }

  /** The replies that carry an id. */
  function Answers(t: seq<Event>): seq<Answer> {
    if t == [] then [] else Answers(t[..|t| - 1]) + AnswerOf(t[|t| - 1])
  }

  function ExpectedAt(n: nat, line: Line): seq<Answer> {
    if line.Text? && line.message.id.Some? then [Answer(n, line.message.id.value)] else []
  }

  /** One answer for every line that carries an id. */
  function Expected(lines: seq<Line>): seq<Answer> {
    if lines == [] then [] else Expected(lines[..|lines| - 1]) + ExpectedAt(|lines| - 1, lines[|lines| - 1])
  }

  datatype Sent = Sent(index: nat, message: Message)

  function SendOf(e: Event): seq<Sent> {
    if e.Posted? && e.post.FromClient? then [Sent(e.post.index, e.post.message)] else []
  }

  /** The client messages that were posted. */
  function Sends(t: seq<Event>): seq<Sent> {
    if t == [] then [] else Sends(t[..|t| - 1]) + SendOf(t[|t| - 1])
  }

  /** The messages are those of lines before n, each line at most once, in order. */
  predicate InOrder(sends: seq<Sent>, lines: seq<Line>, n: nat) {
    && (forall k | 0 <= k < |sends| ::
          sends[k].index < n && sends[k].index < |lines| && lines[sends[k].index] == Text(sends[k].message))
    && (forall j, k | 0 <= j < k < |sends| :: sends[j].index < sends[k].index)
  }

  lemma InOrderLonger(sends: seq<Sent>, lines: seq<Line>, n: nat)
    requires InOrder(sends, lines, n)
    ensures InOrder(sends, lines, n + 1)
  {
  }

  lemma InOrderStep(sends: seq<Sent>, lines: seq<Line>, n: nat, message: Message)
    requires InOrder(sends, lines, n) && n < |lines|
    ensures lines[n] == Text(message) ==> InOrder(sends + [Sent(n, message)], lines, n + 1)
  {
  }

  function OutputOf(e: Event): seq<Event> {
    if e.Replied? || e.Observed? then [e] else []
  }

  /** What was replied and reported. */
  function Outputs(t: seq<Event>): seq<Event> {
    if t == [] then [] else Outputs(t[..|t| - 1]) + OutputOf(t[|t| - 1])
  }

  lemma Appended(t: seq<Event>, e: Event)
    ensures Outputs(t + [e]) == Outputs(t) + OutputOf(e) && Sends(t + [e]) == Sends(t) + SendOf(e)
    ensures Answers(t + [e]) == Answers(t) + AnswerOf(e)
  {
    assert (t + [e])[..|t|] == t;
  }

  lemma {:induction false} AnswersAreOutput(t: seq<Event>)
    ensures Answers(Outputs(t)) == Answers(t)
    decreases |t|
  {
    if t != [] {
      var init, e := t[..|t| - 1], t[|t| - 1];
      AnswersAreOutput(init);
      Appended(Outputs(init), e);
      assert Outputs(t) == if e.Replied? || e.Observed? then Outputs(init) + [e] else Outputs(init);
    }
  }

  /** Everything the rest of the proof needs to know of a trace. */
  ghost predicate Faithful(c: Config, t: seq<Event>, w: Watch, outputs: seq<Event>, sends: seq<Sent>) {
    Safe(c, t) && Watched(c, t) == w && Outputs(t) == outputs && Sends(t) == sends
  }

  lemma FaithfulStep(c: Config, t: seq<Event>, w: Watch, outputs: seq<Event>, sends: seq<Sent>, e: Event)
    requires Faithful(c, t, w, outputs, sends) && Allowed(c, w, e) && Genuine(c, t, e)
    ensures Faithful(c, t + [e], Advance(c, w, e), outputs + OutputOf(e), sends + SendOf(e))
  {
    SafeStep(c, t, e);
    Appended(t, e);
  }

  lemma {:induction false} OwedIsSaved(c: Config, t: seq<Event>)
    ensures Watched(c, t).owes ==> Watched(c, t).saved.Some?
    decreases |t|
  {
    if t != [] {
      OwedIsSaved(c, t[..|t| - 1]);
    }
  }

  lemma {:induction false} SessionIsIssued(c: Config, t: seq<Event>)
    ensures Watched(c, t).session.Some? ==> Watched(c, t).session.value in Watched(c, t).issued
    decreases |t|
  {
    if t != [] {
      SessionIsIssued(c, t[..|t| - 1]);
    }
  }

  lemma ExpectedStep(lines: seq<Line>, n: nat)
    requires n < |lines|
    ensures Expected(lines[..n + 1]) == Expected(lines[..n]) + ExpectedAt(n, lines[n])
  {
    assert lines[..n + 1][..n] == lines[..n];
  }

  // ---------------------------------------------------------------------------------------------
  // The trace and the world

  function Posts(t: seq<Event>): nat {
    if t == [] then 0 else Posts(t[..|t| - 1]) + if t[|t| - 1].Posted? then 1 else 0
  }

  /** The profile found last. */
  function LastProfile(c: Config, t: seq<Event>): Profile {
    if t == [] then c.first
    else if t[|t| - 1].Taken? && t[|t| - 1].profile.Some? then t[|t| - 1].profile.value
    else LastProfile(c, t[..|t| - 1])
  }

  lemma {:induction false} WatchedIsFound(c: Config, t: seq<Event>)
    ensures Watched(c, t).profile == LastProfile(c, t) && Watched(c, t).posted == Posts(t)
    decreases |t|
  {
    if t != [] {
      WatchedIsFound(c, t[..|t| - 1]);
    }
  }

  /** The trace holds what the world showed: the profile and the credential at each line, and the responses in the
      order of the posts; and a generation changes exactly when the profile found is not the one found before. */
  lemma TraceIsGenuine(c: Config, t: seq<Event>, j: nat)
    requires Safe(c, t) && j < |t|
    ensures t[j].Taken? ==> t[j].profile == c.world.profile(t[j].index) && t[j].token == c.world.token(t[j].index)
    ensures t[j].Posted? ==> t[j].response == c.world.response(Posts(t[..j]))
    ensures Changes(Before(c, t, j), t[j]) <==>
              t[j].Taken? && t[j].profile.Some? && t[j].profile.value != LastProfile(c, t[..j])
  {
    WatchedIsFound(c, t[..j]);
    SafeAt(c, t, j);
  }

  /** What the client gets as the response to a post is the reply to its own message: post n carries the message of
      the line, the n-th response of the world is a JSON-RPC 2.0 reply with the id of that message, its status is
      neither 401 nor 403, nor 404 with a session in force, and nothing happened in between. */
  lemma RepliesAreGenuine(c: Config, t: seq<Event>, j: nat)
    requires Safe(c, t) && j < |t| && t[j].Replied? && t[j].answering.Passed?
    ensures j > 0 && t[j - 1].Posted? && t[j - 1].post.FromClient? && t[j - 1].post.index == t[j].index
    ensures var n := t[j].answering.post;
            Posts(t[..j - 1]) == n && t[j - 1].response == c.world.response(n) && c.world.response(n).Response?
    ensures var r := c.world.response(t[j].answering.post);
            && r.body.Reply? && r.body.current && r.body.id == t[j - 1].post.message.id == t[j].id && t[j].id.Some?
            && r.status !in {401, 403} && (r.status == 404 ==> Before(c, t, j - 1).session.None?)
  {
    SafeAt(c, t, j);
    GenuineAt(c, t, j);
    TraceIsGenuine(c, t, j - 1);
    WatchedIsFound(c, t[..j]);
    PostsGrow(t, j - 1);
    assert t[..j][..j - 1] == t[..j - 1];
  }

  lemma PostsGrow(t: seq<Event>, k: nat)
    requires k < |t|
    ensures Posts(t[..k + 1]) == Posts(t[..k]) + if t[k].Posted? then 1 else 0
  {
    assert t[..k + 1][..k] == t[..k];
  }

  // ---------------------------------------------------------------------------------------------
  // What the rules mean

  lemma EarlierWatch(c: Config, t: seq<Event>, k: nat)
    requires k < |t|
    ensures Before(c, t[..|t| - 1], k) == Before(c, t, k)
  {
    assert t[..|t| - 1][..k] == t[..k];
  }

  predicate Reinitializes(c: Config, t: seq<Event>, k: nat)
    requires k < |t|
  {
    Saves(Before(c, t, k), t[k]) || Resumes(Before(c, t, k), t[k])
  }

  predicate Breaks(c: Config, t: seq<Event>, k: nat)
    requires k < |t|
  {
    Changes(Before(c, t, k), t[k]) || Expires(Before(c, t, k), t[k])
  }

  /** A generation ends when the profile found is another one, or when a message or a ping of a session is answered
      with status 404. */
  lemma BreaksExactly(c: Config, t: seq<Event>, k: nat)
    requires k < |t|
    ensures Breaks(c, t, k) <==>
              || (t[k].Taken? && t[k].profile.Some? && t[k].profile.value != LastProfile(c, t[..k]))
              || (t[k].Posted? && (t[k].post.FromClient? || t[k].post.IdlePing?) && t[k].response.Response?
                  && t[k].response.status == 404 && Before(c, t, k).session.Some?)
  {
    WatchedIsFound(c, t[..k]);
  }

  /** An initialization is accepted when the client's own gets a reply with an object as its result, or a repeated
      one was accepted and the notification after it is. */
  lemma ReinitializesExactly(c: Config, t: seq<Event>, k: nat)
    requires k < |t|
    ensures Reinitializes(c, t, k) <==>
              || (t[k].Posted? && t[k].post.FromClient? && t[k].post.message.kind == Initialize
                  && IsReply(t[k].response, t[k].post.message.id) && t[k].response.body.result.Outcome?
                  && (t[k].response.status == 404 ==> Before(c, t, k).session.None?))
              || (t[k].Posted? && t[k].post.ResumeReady? && t[k].response.Response? && t[k].response.status < 300
                  && Before(c, t, k).negotiated)
  {
  }

  lemma {:induction false} SavedStays(c: Config, t: seq<Event>, s: nat)
    requires s < |t| && Saves(Before(c, t, s), t[s])
    ensures Watched(c, t).saved.Some?
    decreases |t|
  {
    if s < |t| - 1 {
      EarlierWatch(c, t, s);
      SavedStays(c, t[..|t| - 1], s);
    }
  }

  lemma {:induction false} OwedUntilAccepted(c: Config, t: seq<Event>, s: nat, i: nat)
    requires s < i < |t| && Saves(Before(c, t, s), t[s]) && Breaks(c, t, i)
    requires forall k | i < k < |t| :: !Reinitializes(c, t, k)
    ensures Watched(c, t).owes
    decreases |t|
  {
    var init := t[..|t| - 1];
    EarlierWatch(c, t, s);
    if i < |t| - 1 {
      EarlierWatch(c, t, i);
      forall k | i < k < |init| ensures !Reinitializes(c, init, k) {
        EarlierWatch(c, t, k);
        assert !Reinitializes(c, t, k);
      }
      OwedUntilAccepted(c, init, s, i);
      assert !Reinitializes(c, t, |t| - 1);
    }
    SavedStays(c, init, s);
  }

  lemma PrefixBefore(c: Config, t: seq<Event>, j: nat, k: nat)
    requires k < j <= |t|
    ensures Before(c, t[..j], k) == Before(c, t, k)
  {
    assert t[..j][..k] == t[..k];
  }

  lemma OwedBefore(c: Config, t: seq<Event>, s: nat, i: nat, j: nat)
    requires s < i < j <= |t| && Saves(Before(c, t, s), t[s]) && Breaks(c, t, i)
    requires forall k | i < k < j :: !Reinitializes(c, t, k)
    ensures Before(c, t, j).owes
  {
    PrefixBefore(c, t, j, s);
    PrefixBefore(c, t, j, i);
    forall k | i < k < j ensures !Reinitializes(c, t[..j], k) {
      PrefixBefore(c, t, j, k);
      assert !Reinitializes(c, t, k);
    }
    OwedUntilAccepted(c, t[..j], s, i);
  }

  /** Anything that needs a session. */
  predicate Business(e: Event) {
    e.Posted? && (e.post.SchemaList? || (Carried(e).Some? && Carried(e).value.kind != Initialize))
  }

  /** After the profile found changed, or a response said that the session is unknown, and once an initialization
      of the client had been accepted, nothing but initializations is posted before one is accepted again. */
  lemma NoBusinessBeforeReinitialization(c: Config, t: seq<Event>, s: nat, i: nat, j: nat)
    requires Safe(c, t) && s < i < j < |t|
    requires Saves(Before(c, t, s), t[s]) && Breaks(c, t, i) && Business(t[j])
    ensures exists k | i < k < j :: Reinitializes(c, t, k)
  {
    BusinessIsNotOwed(c, t, j);
    if forall k | i < k < j :: !Reinitializes(c, t, k) {
      OwedBefore(c, t, s, i, j);
    }
  }

  lemma BusinessIsNotOwed(c: Config, t: seq<Event>, j: nat)
    requires Safe(c, t) && j < |t| && Business(t[j])
    ensures !Before(c, t, j).owes
  {
    SafeAt(c, t, j);
  }

  lemma {:induction false} NegotiatedFrom(c: Config, t: seq<Event>) returns (r: nat)
    requires Watched(c, t).negotiated
    ensures r < |t| && Renegotiates(t[r]) && forall k | r < k < |t| :: !t[k].Posted? && !t[k].Taken?
    decreases |t|
  {
    if Renegotiates(t[|t| - 1]) {
      r := |t| - 1;
    } else {
      r := NegotiatedFrom(c, t[..|t| - 1]);
    }
  }

  /** A repeated initialization counts as accepted after two accepted responses: to the initialization itself and,
      with nothing posted in between, to the notification after it. */
  lemma ResumptionIsAccepted(c: Config, t: seq<Event>, k: nat) returns (r: nat)
    requires k < |t| && Resumes(Before(c, t, k), t[k])
    ensures r < k && t[r].Posted? && t[r].post.ResumeInitialize? && t[r].response.Response?
    ensures t[r].response.status < 300 && t[r].response.body.Reply?
    ensures t[r].response.body.result.Outcome? && t[r].response.body.result.protocolVersion
    ensures t[k].Posted? && t[k].post.ResumeReady? && t[k].response.Response? && t[k].response.status < 300
    ensures forall n | r < n < k :: !t[n].Posted? && !t[n].Taken?
  {
    r := NegotiatedFrom(c, t[..k]);
  }

  /** Neither the profile changes nor a list is adapted. */
  predicate Undisturbed(c: Config, t: seq<Event>, k: nat)
    requires k < |t|
  {
    !Changes(Before(c, t, k), t[k]) && Adapts(c, Before(c, t, k), t[k]).None?
  }

  lemma UndisturbedPrefix(c: Config, t: seq<Event>, j: nat, k: nat)
    requires k < j <= |t|
    ensures Undisturbed(c, t[..j], k) == Undisturbed(c, t, k)
    ensures Adapts(c, Before(c, t[..j], k), t[..j][k]) == Adapts(c, Before(c, t, k), t[k])
  {
    PrefixBefore(c, t, j, k);
  }

  predicate UndisturbedSince(c: Config, t: seq<Event>, i: nat) {
    forall k | i < k < |t| :: Undisturbed(c, t, k)
  }

  lemma UndisturbedLonger(c: Config, t: seq<Event>, i: nat)
    requires i < |t| - 1 && UndisturbedSince(c, t[..|t| - 1], i) && Undisturbed(c, t, |t| - 1)
    ensures UndisturbedSince(c, t, i)
    ensures Adapts(c, Before(c, t[..|t| - 1], i), t[i]) == Adapts(c, Before(c, t, i), t[i])
  {
    UndisturbedPrefix(c, t, |t| - 1, i);
    forall k | i < k < |t| ensures Undisturbed(c, t, k) {
      if k < |t| - 1 {
        UndisturbedPrefix(c, t, |t| - 1, k);
        assert Undisturbed(c, t[..|t| - 1], k);
      }
    }
  }

  lemma {:induction false} DefinitionsFrom(c: Config, t: seq<Event>) returns (i: nat)
    requires Watched(c, t).definitions != map[]
    ensures i < |t| && Adapts(c, Before(c, t, i), t[i]) == Some(Watched(c, t).definitions)
    ensures UndisturbedSince(c, t, i)
    decreases |t|
  {
    var n := |t| - 1;
    if Adapts(c, Before(c, t, n), t[n]).Some? {
      i := n;
    } else {
      DefinitionsKept(c, t);
      i := DefinitionsFrom(c, t[..n]);
      UndisturbedLonger(c, t, i);
    }
  }

  lemma DefinitionsKept(c: Config, t: seq<Event>)
    requires Watched(c, t).definitions != map[] && t != [] && Adapts(c, Before(c, t, |t| - 1), t[|t| - 1]).None?
    ensures Undisturbed(c, t, |t| - 1)
    ensures Watched(c, t).definitions == Watched(c, t[..|t| - 1]).definitions
  {
  }

  /** A checked tool call that was posted fits the definitions the last adapted response brought, and neither the
      profile has changed since nor has another list been adapted. */
  lemma CallsFitCurrentDefinitions(c: Config, t: seq<Event>, j: nat) returns (i: nat)
    requires Safe(c, t) && c.checks && j < |t|
    requires t[j].Posted? && t[j].post.FromClient? && t[j].post.message.kind == ToolsCall
    ensures i < j && Adapts(c, Before(c, t, i), t[i]).Some?
    ensures CallFits(c.valid, Adapts(c, Before(c, t, i), t[i]).value, t[j].post.message)
    ensures forall k | i < k < j :: Undisturbed(c, t, k)
  {
    SafeAt(c, t, j);
    i := DefinitionsFrom(c, t[..j]);
    UndisturbedPrefix(c, t, j, i);
    forall k | i < k < j ensures Undisturbed(c, t, k) {
      UndisturbedPrefix(c, t, j, k);
      assert Undisturbed(c, t[..j], k);
    }
  }

  /** Definitions are those of a list of tools in a response, all of which can be adapted. */
  lemma AdaptedFromTools(c: Config, w: Watch, e: Event) returns (tools: seq<Tool>)
    requires Adapts(c, w, e).Some? && Adapts(c, w, e).value != map[]
    ensures e.Posted? && e.response.Response? && e.response.status !in {401, 403}
    ensures e.response.body.Reply? && e.response.body.result.Outcome? && e.response.body.result.tools == ToolsOf(tools)
    ensures e.post.SchemaList? || (e.post.FromClient? && e.post.message.kind == ToolsList
                                   && IsReply(e.response, e.post.message.id))
    ensures AllAdaptable(c.checked, BUDGET, tools) && Adapts(c, w, e).value == Originals(tools)
  {
    tools := ResponseTools(e.response.body).tools;
  }

  /** So the arguments of a posted call are valid under what the client was shown of its tool, when the verdicts of
      original definitions are those of JSON Schema. */
  lemma PostedCallsFitWhatIsShown(c: Config, o: Oracle, t: seq<Event>, j: nat) returns (i: nat, n: nat)
    requires Safe(c, t) && c.checks && j < |t|
    requires t[j].Posted? && t[j].post.FromClient? && t[j].post.message.kind == ToolsCall
    requires forall d, v | c.valid(d, v) :: ToolSchemas.Valid(o, d, v)
    ensures i < j && t[i].Posted? && t[i].response.Response? && ResponseTools(t[i].response.body).ToolsOf?
    ensures var tools := ResponseTools(t[i].response.body).tools;
            && n < |tools| && tools[n].name == t[j].post.message.tool
            && AllAdaptable(c.checked, BUDGET, tools) && Adaptable(c.checked, BUDGET, tools[n])
            && (WellFormed(tools[n].inputSchema.value) && Separable(Shown(BUDGET, tools[n]).inputSchema.value) ==>
                  ToolSchemas.Valid(o, Shown(BUDGET, tools[n]).inputSchema.value, t[j].post.message.arguments))
  {
    i := CallsFitCurrentDefinitions(c, t, j);
    var m := t[j].post.message;
    var tools := AdaptedFromTools(c, Before(c, t, i), t[i]);
    n := DefinitionOf(tools, m.tool.value);
    assert Adaptable(c.checked, BUDGET, tools[n]);
    if WellFormed(tools[n].inputSchema.value) && Separable(Shown(BUDGET, tools[n]).inputSchema.value) {
      CheckedCallsFitWhatIsShown(o, c.checked, BUDGET, tools, n, m.arguments);
    }
  }

  /** Neither the profile changes nor are other tools listed. */
  predicate ListStays(c: Config, t: seq<Event>, k: nat)
    requires k < |t|
  {
    !Changes(Before(c, t, k), t[k]) && Lists(c, Before(c, t, k), t[k]).None?
  }

  predicate ListStaysSince(c: Config, t: seq<Event>, i: nat) {
    forall k | i < k < |t| :: ListStays(c, t, k)
  }

  lemma ListStaysLonger(c: Config, t: seq<Event>, i: nat)
    requires i < |t| - 1 && ListStaysSince(c, t[..|t| - 1], i) && ListStays(c, t, |t| - 1)
    ensures ListStaysSince(c, t, i)
    ensures Before(c, t[..|t| - 1], i) == Before(c, t, i)
  {
    EarlierWatch(c, t, i);
    forall k | i < k < |t| ensures ListStays(c, t, k) {
      if k < |t| - 1 {
        EarlierWatch(c, t, k);
        assert ListStays(c, t[..|t| - 1], k);
      }
    }
  }

  lemma ListedKept(c: Config, t: seq<Event>)
    requires Watched(c, t).listed > 0 && t != [] && Lists(c, Before(c, t, |t| - 1), t[|t| - 1]).None?
    ensures ListStays(c, t, |t| - 1) && Watched(c, t).listed == Watched(c, t[..|t| - 1]).listed
  {
  }

  lemma {:induction false} ListedFrom(c: Config, t: seq<Event>) returns (i: nat)
    requires Watched(c, t).listed > 0
    ensures i < |t| && Lists(c, Before(c, t, i), t[i]) == Some(Watched(c, t).listed) && ListStaysSince(c, t, i)
    decreases |t|
  {
    var n := |t| - 1;
    if Lists(c, Before(c, t, n), t[n]).Some? {
      i := n;
    } else {
      ListedKept(c, t);
      i := ListedFrom(c, t[..n]);
      ListStaysLonger(c, t, i);
    }
  }

  /** Tools are reported as read only after a response to a `tools/list` of the client listed some, with no change
      of the profile and no other list since. */
  lemma ToolsReadAfterListing(c: Config, t: seq<Event>, j: nat) returns (i: nat)
    requires Safe(c, t) && j < |t| && t[j] == Observed(ToolsRead)
    ensures i < j
    ensures t[i].Posted? && t[i].post.FromClient? && t[i].post.message.kind == ToolsList
    ensures IsReply(t[i].response, t[i].post.message.id) && t[i].response.body.result.Outcome?
    ensures t[i].response.body.result.tools.ToolsOf? && t[i].response.body.result.tools.tools != []
    ensures forall k | i < k < j :: ListStays(c, t, k)
  {
    SafeAt(c, t, j);
    i := ListedFrom(c, t[..j]);
    forall k | i <= k < j ensures Before(c, t[..j], k) == Before(c, t, k) {
      PrefixBefore(c, t, j, k);
    }
    forall k | i < k < j ensures ListStays(c, t, k) {
      assert ListStays(c, t[..j], k);
    }
  }

  lemma {:induction false} SessionFrom(c: Config, t: seq<Event>, session: string) returns (i: nat)
    requires session in Watched(c, t).issued
    ensures i < |t| && Issues(Before(c, t, i), t[i]) == Some(session) && forall k | i < k < |t| :: !Breaks(c, t, k)
    decreases |t|
  {
    var n := |t| - 1;
    if Issues(Before(c, t, n), t[n]) == Some(session) {
      i := n;
    } else {
      i := SessionFrom(c, t[..n], session);
      forall k | i <= k < n ensures Before(c, t[..n], k) == Before(c, t, k) {
        EarlierWatch(c, t, k);
      }
      forall k | i < k < |t| ensures !Breaks(c, t, k) {
        assert k < n ==> !Breaks(c, t[..n], k);
      }
    }
  }

  /** A session id is sent only if a response of this generation of the service issued it, and not after a
      response said that the session is unknown. */
  lemma SessionsAreCurrent(c: Config, t: seq<Event>, j: nat) returns (i: nat)
    requires Safe(c, t) && j < |t| && t[j].Posted? && t[j].session.Some?
    ensures i < j && t[i].Posted? && t[i].response.Response? && t[i].response.issued == t[j].session
    ensures forall k | i < k < j :: !Breaks(c, t, k)
  {
    SafeAt(c, t, j);
    i := SessionFrom(c, t[..j], t[j].session.value);
    forall k | i <= k < j ensures Before(c, t[..j], k) == Before(c, t, k) {
      PrefixBefore(c, t, j, k);
    }
    forall k | i < k < j ensures !Breaks(c, t, k) {
      assert !Breaks(c, t[..j], k);
    }
  }
}
