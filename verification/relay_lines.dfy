/** What the stdio relay does with the lines of its client: for each line, from what the watcher knows and what the
    world will answer, the posts, the replies, what is reported and how the line ends; and what follows for a run.
 */
module RelayLines {
  import opened Collections
  import opened JsonSchema
  import opened ToolSchemas
  import opened RelayTrace

  /** How one line ends: dealt with, failed with a code, or by an exception nothing catches. */
  datatype Handled = Done | Failed | Crashed

  datatype Ending = EndOfInput | Malformed | Broken

  // ---------------------------------------------------------------------------------------------
  // A message with a session

  /** The next response is that to this post; the session it was sent with does not matter to the watcher. */
  function Step(c: Config, w: Watch, post: Post): Watch {
    Advance(c, w, Posted(post, w.session, c.world.response(w.posted)))
  }

  lemma StepIsAdvance(c: Config, w: Watch, post: Post, session: Option<string>)
    ensures Advance(c, w, Posted(post, session, c.world.response(w.posted))) == Step(c, w, post)
  {
  }

  /** The definitions a call is checked against: those in force or, if there are none, the ones the next list of
      tools brings. */
  function Found(c: Config, w: Watch): Option<map<Word, Doc>> {
    if w.definitions != map[] then Some(w.definitions) else Discovered(c, c.world.response(w.posted))
  }

  predicate Checks(c: Config, m: Message) {
    c.checks && m.kind == ToolsCall
  }

  predicate Admits(c: Config, w: Watch, m: Message) {
    Checks(c, m) ==> Found(c, w).Some? && CallFits(c.valid, Found(c, w).value, m)
  }

  /** The list of tools is read if a call has to be checked and there are no definitions. */
  function Checked(c: Config, w: Watch, m: Message): Watch {
    if Checks(c, m) && w.definitions == map[] then Step(c, w, SchemaList) else w
  }

  function PostOf(i: nat, m: Message, idle: bool): Post {
    if idle then IdlePing else FromClient(i, m)
  }

  /** A list of tools that cannot be adapted for a client whose calls are checked. */
  predicate Unadaptable(c: Config, m: Message, body: Body) {
    c.checks && m.kind == ToolsList && body.Reply?
    && match body.result
       case Missing => false
       case Scalar => true
       case Sequence(mentions) => mentions
       case Outcome(_, tools) => !tools.Absent? && Definitions(c, tools).None?
  }

  /** How the response to a message ends the line. The result of an initialization and that of a list of tools are
      read as objects whatever they are. */
  function Verdict(c: Config, w: Watch, m: Message, idle: bool, r: Response): Handled {
    if !r.Response? || Denied(r) || (r.status == 404 && w.session.Some?) then Failed
    else if m.id.None? then (if r.status >= 300 then Failed else Done)
    else if !AnswersTo(m, r) then Failed
    else if m.kind == Initialize && Shapeless(r.body) then Crashed
    else if Unadaptable(c, m, r.body) then Failed
    else if idle && (r.status >= 300 || r.body.error || !r.body.result.Outcome?) then Failed
    else if m.kind == ToolsList && Shapeless(r.body) then Crashed
    else Done
  }

  /** What is reported of the reply to a list of tools or a call. */
  function Counted(m: Message, body: Body): seq<Event> {
    if m.kind == ToolsList && ResponseTools(body).ToolsOf?
    then [Observed(if ResponseTools(body).tools != [] then ToolsRead else FailedReceipt)]
    else if m.kind == ToolsCall && body.Reply? && !body.result.Missing? then [Observed(RequestAccepted)]
    else []
  }

  /** The reply to its message, which the client gets; a ping of the relay's own confirms the connection. */
  function Delivered(w: Watch, i: nat, m: Message, idle: bool): seq<Event> {
    if idle then [Observed(if w.listed > 0 then ToolsRead else Connected)] else [Replied(i, m.id, Passed(w.posted))]
  }

  /** The output of a message that was sent, by how its response r ends the line: a list of tools is passed on
      before its result is counted. */
  function Received(c: Config, w: Watch, i: nat, m: Message, idle: bool, r: Response): seq<Event> {
    match Verdict(c, w, m, idle, r)
    case Done =>
      if m.id.None? then (if m.kind == Initialized then [Observed(Connected)] else [])
      else Delivered(w, i, m, idle) + if r.Response? then Counted(m, r.body) else []
    case Failed => []
    case Crashed => if m.kind == ToolsList then Delivered(w, i, m, idle) else []
  }

  /** How a message ends for which no session is owed. */
  function SessionEnds(c: Config, w: Watch, m: Message, idle: bool): Handled {
    if Checks(c, m) && Found(c, w).None? then Failed
    else if Checks(c, m) && !m.shape.Object? then Crashed
    else if !Admits(c, w, m) then Done
    else
      var k := Checked(c, w, m);
      Verdict(c, k, m, idle, c.world.response(k.posted))
  }

  /** Its output, but for the refusal of a message that failed. */
  function SessionOutput(c: Config, w: Watch, i: nat, m: Message, idle: bool): seq<Event> {
    if Checks(c, m) && (Found(c, w).None? || !m.shape.Object?) then []
    else if !Admits(c, w, m) then [Replied(i, m.id, InvalidArguments)]
    else
      var k := Checked(c, w, m);
      Received(c, k, i, m, idle, c.world.response(k.posted))
  }

  function SessionAfterwards(c: Config, w: Watch, i: nat, m: Message, idle: bool): Watch {
    var k := Checked(c, w, m);
    if Admits(c, w, m) then Step(c, k, PostOf(i, m, idle)) else k
  }

  function SessionSends(c: Config, w: Watch, i: nat, m: Message, idle: bool): seq<Sent> {
    if !idle && Admits(c, w, m) then [Sent(i, m)] else []
  }

  // ---------------------------------------------------------------------------------------------
  // A message of a line that can be dealt with

  predicate Waits(w: Watch, m: Message) {
    w.owes && m.kind != Initialize
  }

  /** The next two responses accept the repeated initialization and its completion. */
  predicate Rebuilt(c: Config, w: Watch) {
    Negotiated(c.world.response(w.posted)) && Acknowledged(c.world.response(w.posted + 1))
  }

  /** A response to a repeated initialization that looks accepted but is not an object, or whose result is not: to
      read it raises an exception that nothing catches. */
  predicate Fatal(r: Response) {
    r.Response? && !Denied(r) && r.status < 300 && (r.body.NotAnObject? || Shapeless(r.body))
  }

  function Resumed(c: Config, w: Watch): Watch {
    var first := Step(c, w, ResumeInitialize(if w.saved.Some? then w.saved.value else ""));
    if Negotiated(c.world.response(w.posted)) then Step(c, first, ResumeReady) else first
  }

  function Rebuild(c: Config, w: Watch, m: Message): Watch {
    if Waits(w, m) then Resumed(c, w) else w
  }

  /** A client whose calls are checked is told that it has to negotiate the older protocol. */
  predicate Discovers(c: Config, m: Message) {
    c.checks && m.kind == Discover
  }

  predicate Starts(c: Config, w: Watch, m: Message) {
    Waits(w, m) ==> Rebuilt(c, w)
  }

  function Ends(c: Config, w: Watch, m: Message, idle: bool): Handled {
    if !w.ready then Failed
    else if Discovers(c, m) then Done
    else if m.shape.MetaNotObject? then Crashed
    else if !Starts(c, w, m) then (if Fatal(c.world.response(w.posted)) then Crashed else Failed)
    else SessionEnds(c, Rebuild(c, w, m), m, idle)
  }

  function Output(c: Config, w: Watch, i: nat, m: Message, idle: bool): seq<Event> {
    if !w.ready then []
    else if Discovers(c, m) then [Replied(i, m.id, Unsupported)]
    else if m.shape.MetaNotObject? || !Starts(c, w, m) then []
    else SessionOutput(c, Rebuild(c, w, m), i, m, idle)
  }

  function Afterwards(c: Config, w: Watch, i: nat, m: Message, idle: bool): Watch {
    if !w.ready || Discovers(c, m) || m.shape.MetaNotObject? then w
    else if !Starts(c, w, m) then Resumed(c, w)
    else SessionAfterwards(c, Rebuild(c, w, m), i, m, idle)
  }

  function Goes(c: Config, w: Watch, i: nat, m: Message, idle: bool): seq<Sent> {
    if !w.ready || Discovers(c, m) || m.shape.MetaNotObject? || !Starts(c, w, m) then []
    else SessionSends(c, Rebuild(c, w, m), i, m, idle)
  }

  /** What is shown of a message that could not be dealt with. */
  function Refusal(i: nat, m: Message, idle: bool): seq<Event> {
    [Observed(FailedReceipt)] + if m.id.Some? && !idle then [Replied(i, m.id, Refused)] else []
  }

  function MessageOutput(c: Config, w: Watch, i: nat, m: Message, idle: bool): seq<Event> {
    Output(c, w, i, m, idle) + if Ends(c, w, m, idle).Failed? then Refusal(i, m, idle) else []
  }

  /** The response to the message itself, which is fatal if it is a reply to an initialization or a list of tools
      whose result is not an object. */
  predicate Undoes(c: Config, w: Watch, m: Message) {
    var k := Checked(c, Rebuild(c, w, m), m);
    var r := c.world.response(k.posted);
    && (m.kind == Initialize || m.kind == ToolsList) && AnswersTo(m, r) && Shapeless(r.body)
    && !(r.status == 404 && k.session.Some?) && !Unadaptable(c, m, r.body)
  }

  /** Why the relay dies of a message: its parameters are not what they are taken for, the repeated initialization it
      waits for is answered fatally, or its own response is. */
  predicate Dies(c: Config, w: Watch, m: Message) {
    && w.ready && !Discovers(c, m)
    && (|| m.shape.MetaNotObject?
        || (Waits(w, m) && Fatal(c.world.response(w.posted)))
        || (Starts(c, w, m)
            && if Checks(c, m) then m.shape.NotObject? && Found(c, Rebuild(c, w, m)).Some? else Undoes(c, w, m)))
  }

  lemma CrashesExactly(c: Config, w: Watch, m: Message, idle: bool)
    requires idle ==> m == PING
    ensures Ends(c, w, m, idle).Crashed? <==> Dies(c, w, m)
  {
  }

  // ---------------------------------------------------------------------------------------------
  // A line

  /** The line is taken up with the profile and the credential found then. */
  function Taking(c: Config, i: nat): Event {
    Taken(i, c.world.profile(i), c.world.token(i))
  }

  function TakenUp(c: Config, w: Watch, i: nat): Watch {
    Advance(c, w, Taking(c, i))
  }

  function TakenOutput(c: Config, w: Watch, i: nat): seq<Event> {
    if Changes(w, Taking(c, i)) then [Observed(Started)] else []
  }

  /** What a line asks for; idle intervals only count once there is an initialization. */
  function Asked(w: Watch, line: Line): Option<Message> {
    match line
    case Text(m) => Some(m)
    case Idle => if w.saved.Some? then Some(PING) else None
    case _ => None
  }

  /** How a line ends the relay, if it does. */
  function Stops(c: Config, w: Watch, i: nat, line: Line): Option<Ending> {
    if line.TooLong? || line.Garbage? then Some(Malformed)
    else if Asked(w, line).Some? && Dies(c, TakenUp(c, w, i), Asked(w, line).value) then Some(Broken)
    else None
  }

  function AskedOutput(c: Config, w: Watch, i: nat, m: Message, idle: bool): seq<Event> {
    TakenOutput(c, w, i) + MessageOutput(c, TakenUp(c, w, i), i, m, idle)
  }

  function LineOutput(c: Config, w: Watch, i: nat, line: Line): seq<Event> {
    if line.TooLong? || line.Garbage? then [Observed(FailedReceipt)]
    else match Asked(w, line)
      case None => []
      case Some(m) => AskedOutput(c, w, i, m, line.Idle?)
  }

  function LineAfterwards(c: Config, w: Watch, i: nat, line: Line): Watch {
    match Asked(w, line)
    case None => w
    case Some(m) => Afterwards(c, TakenUp(c, w, i), i, m, line.Idle?)
  }

  function LineSends(c: Config, w: Watch, i: nat, line: Line): seq<Sent> {
    match Asked(w, line)
    case None => []
    case Some(m) => Goes(c, TakenUp(c, w, i), i, m, line.Idle?)
  }

  // ---------------------------------------------------------------------------------------------
  // A run

  /** What comes of a line: what the watcher knows afterwards, what is replied and reported, what is posted of the
      client, whether the line ends the run, and whether it gets its reply even so. */
  datatype Dealing = Dealing(after: Watch, output: seq<Event>, sends: seq<Sent>, stops: Option<Ending>, last: bool)

  /** What a relay does line by line, in terms of what the watcher knows before the line. */
  datatype Machine = Machine(first: Watch, deal: (Watch, nat, Line) -> Dealing)

  function LineDealt(c: Config, w: Watch, i: nat, line: Line): Dealing {
    Dealing(LineAfterwards(c, w, i, line), LineOutput(c, w, i, line), LineSends(c, w, i, line), Stops(c, w, i, line),
            RepliesLast(c, w, i, line))
  }

  function Stdio(c: Config): Machine {
    Machine(Watched(c, []), (w: Watch, i: nat, line: Line) => LineDealt(c, w, i, line))
  }

  /** What the watcher knows, what was replied and reported and what was posted before a line. */
  datatype Progress = Progress(watch: Watch, output: seq<Event>, sent: seq<Sent>)

  function Continued(p: Progress, d: Dealing): Progress {
    Progress(d.after, p.output + d.output, p.sent + d.sends)
  }

  function ProgressAt(m: Machine, lines: seq<Line>, n: nat): Progress
    requires n <= |lines|
  {
    if n == 0 then Progress(m.first, [Observed(Started)], [])
    else
      var before := ProgressAt(m, lines, n - 1);
      Continued(before, m.deal(before.watch, n - 1, lines[n - 1]))
  }

  /** What comes of line n. */
  function DealingAt(m: Machine, lines: seq<Line>, n: nat): Dealing
    requires n < |lines|
  {
    m.deal(ProgressAt(m, lines, n).watch, n, lines[n])
  }

  function OutputAt(m: Machine, lines: seq<Line>, n: nat): seq<Event>
    requires n <= |lines|
  {
    ProgressAt(m, lines, n).output
  }

  /** How line n ends the run, if it does. */
  function StopsAt(m: Machine, lines: seq<Line>, n: nat): Option<Ending>
    requires n < |lines|
  {
    DealingAt(m, lines, n).stops
  }

  /** Line n gets its reply, even if the run ends there. */
  predicate RepliesTo(m: Machine, lines: seq<Line>, n: nat)
    requires n < |lines|
  {
    StopsAt(m, lines, n).None? || DealingAt(m, lines, n).last
  }

  /** No line before n stops the run. */
  predicate GoesOn(m: Machine, lines: seq<Line>, n: nat)
    requires n <= |lines|
  {
    n == 0 || (GoesOn(m, lines, n - 1) && StopsAt(m, lines, n - 1).None?)
  }

  /** The run ends at line n, or with the input. */
  predicate EndsAt(m: Machine, lines: seq<Line>, n: nat)
    requires n <= |lines|
  {
    GoesOn(m, lines, n) && (n < |lines| ==> StopsAt(m, lines, n).Some?)
  }

  function EndingAt(m: Machine, lines: seq<Line>, n: nat): Ending
    requires n <= |lines| && EndsAt(m, lines, n)
  {
    if n == |lines| then EndOfInput else StopsAt(m, lines, n).value
  }

  /** Whether the last thing reported, other than a start, is a failure. */
  predicate Failing(outputs: seq<Event>) {
    if outputs == [] then false
    else
      var last := outputs[|outputs| - 1];
      if last.Observed? && last.receipt != Started then last.receipt == FailedReceipt
      else Failing(outputs[..|outputs| - 1])
  }

  /** The output of a run that ends at line n, or with the input. */
  function WholeOutput(m: Machine, lines: seq<Line>, n: nat): seq<Event>
    requires n <= |lines|
  {
    if n < |lines| then OutputAt(m, lines, n + 1)
    else OutputAt(m, lines, n) + if Failing(OutputAt(m, lines, n)) then [] else [Observed(Disconnected)]
  }

  function WholeSent(m: Machine, lines: seq<Line>, n: nat): seq<Sent>
    requires n <= |lines|
  {
    ProgressAt(m, lines, if n < |lines| then n + 1 else n).sent
  }

  // ---------------------------------------------------------------------------------------------
  // What a line means for the client

  lemma {:induction false} AnswersOfBoth(a: seq<Event>, b: seq<Event>)
    ensures Answers(a + b) == Answers(a) + Answers(b)
    decreases |b|
  {
    if b == [] {
      assert a + b == a;
    } else {
      assert (a + b)[..|a + b| - 1] == a + b[..|b| - 1];
      AnswersOfBoth(a, b[..|b| - 1]);
    }
  }

  lemma AnswersOfOne(e: Event)
    ensures Answers([e]) == AnswerOf(e)
  {
    assert [e][..0] == [];
    assert Answers([e]) == Answers([]) + AnswerOf(e);
  }

  /** The answer a line is owed; the relay's own pings are owed none. */
  function Due(i: nat, m: Message, idle: bool): seq<Answer> {
    if !idle && m.id.Some? then [Answer(i, m.id.value)] else []
  }

  lemma CountedAnswersNothing(m: Message, body: Body)
    ensures Answers(Counted(m, body)) == []
  {
    if Counted(m, body) != [] {
      AnswersOfOne(Counted(m, body)[0]);
    }
  }

  lemma DeliveredIsAnswer(w: Watch, i: nat, m: Message, idle: bool)
    ensures Answers(Delivered(w, i, m, idle)) == Due(i, m, idle)
  {
    AnswersOfOne(Delivered(w, i, m, idle)[0]);
  }

  lemma ReceivedIsAnswer(c: Config, w: Watch, i: nat, m: Message, idle: bool, r: Response)
    ensures Answers(Received(c, w, i, m, idle, r))
         == if Verdict(c, w, m, idle, r).Done? || (Verdict(c, w, m, idle, r).Crashed? && m.kind == ToolsList)
            then Due(i, m, idle) else []
  {
    AnswersOfOne(Observed(Connected));
    DeliveredIsAnswer(w, i, m, idle);
    if r.Response? {
      AnswersOfBoth(Delivered(w, i, m, idle), Counted(m, r.body));
      CountedAnswersNothing(m, r.body);
    }
  }

  lemma RefusalIsAnswer(i: nat, m: Message, idle: bool)
    ensures Answers(Refusal(i, m, idle)) == Due(i, m, idle)
  {
    var reply := Replied(i, m.id, Refused);
    AnswersOfOne(Observed(FailedReceipt));
    AnswersOfOne(reply);
    AnswersOfBoth([Observed(FailedReceipt)], if m.id.Some? && !idle then [reply] else []);
  }

  /** The relay replies before it dies: only of a list of tools that it passes on first. */
  predicate DiesAfterReply(c: Config, w: Watch, m: Message) {
    Dies(c, w, m) && m.kind == ToolsList && !m.shape.MetaNotObject? && Starts(c, w, m)
  }

  lemma SessionIsAnswered(c: Config, w: Watch, i: nat, m: Message, idle: bool)
    requires idle ==> m == PING
    ensures var ends := SessionEnds(c, w, m, idle);
            Answers(SessionOutput(c, w, i, m, idle))
            == if ends.Done? || (ends.Crashed? && m.kind == ToolsList) then Due(i, m, idle) else []
  {
    if Admits(c, w, m) {
      var k := Checked(c, w, m);
      ReceivedIsAnswer(c, k, i, m, idle, c.world.response(k.posted));
    } else {
      AnswersOfOne(Replied(i, m.id, InvalidArguments));
    }
  }

  lemma OutputIsAnswer(c: Config, w: Watch, i: nat, m: Message, idle: bool)
    requires idle ==> m == PING
    ensures Answers(Output(c, w, i, m, idle))
         == if Ends(c, w, m, idle).Done? || DiesAfterReply(c, w, m) then Due(i, m, idle) else []
  {
    CrashesExactly(c, w, m, idle);
    AnswersOfOne(Replied(i, m.id, Unsupported));
    SessionIsAnswered(c, Rebuild(c, w, m), i, m, idle);
  }

  /** A message is answered once, whatever the server says, unless the relay dies of it before. */
  lemma MessageIsAnswered(c: Config, w: Watch, i: nat, m: Message, idle: bool)
    requires idle ==> m == PING
    ensures Answers(MessageOutput(c, w, i, m, idle))
         == if Dies(c, w, m) && !DiesAfterReply(c, w, m) then [] else Due(i, m, idle)
  {
    CrashesExactly(c, w, m, idle);
    OutputIsAnswer(c, w, i, m, idle);
    RefusalIsAnswer(i, m, idle);
    AnswersOfBoth(Output(c, w, i, m, idle), if Ends(c, w, m, idle).Failed? then Refusal(i, m, idle) else []);
  }

  // ---------------------------------------------------------------------------------------------
  // Which answer it is

  /** A list of tools that the client is not shown: its result reads as one that has tools, and they cannot be
      adapted. */
  predicate Withheld(c: Config, m: Message, body: Body) {
    && c.checks && m.kind == ToolsList && body.Reply?
    && (body.result.Scalar? || (body.result.Sequence? && body.result.mentions)
        || (body.result.Outcome? && !body.result.tools.Absent? && Definitions(c, body.result.tools).None?))
  }

  /** The response to a message that was posted with the watcher k goes to the client. */
  predicate GoesBack(c: Config, k: Watch, m: Message, r: Response) {
    && IsReply(r, m.id) && (r.status == 404 ==> k.session.None?) && !Withheld(c, m, r.body)
    && (m.kind == Initialize ==> !r.body.result.Scalar? && !r.body.result.Sequence?)
  }

  lemma PassedBySession(c: Config, k: Watch, i: nat, m: Message, r: Response)
    requires m.id.Some?
    ensures GoesBack(c, k, m, r) <==>
              Verdict(c, k, m, false, r).Done? || (Verdict(c, k, m, false, r).Crashed? && m.kind == ToolsList)
    ensures GoesBack(c, k, m, r) ==>
              Received(c, k, i, m, false, r) == [Replied(i, m.id, Passed(k.posted))] + Counted(m, r.body)
    ensures !GoesBack(c, k, m, r) ==> Received(c, k, i, m, false, r) == []
  {
  }

  /** A request that was posted gets its response exactly if that is the reply to it, and can be shown; it gets an
      error in all other cases, unless the relay dies of the result of an initialization. In particular, a response
      with another id is never passed on. */
  lemma PostedIsAnsweredExactly(c: Config, w: Watch, i: nat, m: Message)
    requires m.id.Some? && Goes(c, w, i, m, false) == [Sent(i, m)]
    ensures var k := Checked(c, Rebuild(c, w, m), m);
            var r := c.world.response(k.posted);
            var output := MessageOutput(c, w, i, m, false);
            if GoesBack(c, k, m, r) then output == [Replied(i, m.id, Passed(k.posted))] + Counted(m, r.body)
            else if Dies(c, w, m) then output == [] && m.kind == Initialize && IsReply(r, m.id)
            else output == [Observed(FailedReceipt), Replied(i, m.id, Refused)]
  {
    CrashesExactly(c, w, m, false);
    var k := Checked(c, Rebuild(c, w, m), m);
    PassedBySession(c, k, i, m, c.world.response(k.posted));
  }

  lemma ForeignRepliesAreRefused(c: Config, w: Watch, i: nat, m: Message)
    requires m.id.Some? && Goes(c, w, i, m, false) == [Sent(i, m)]
    requires var r := c.world.response(Checked(c, Rebuild(c, w, m), m).posted);
             r.Response? && r.body.Reply? && r.body.id != m.id
    ensures MessageOutput(c, w, i, m, false) == [Observed(FailedReceipt), Replied(i, m.id, Refused)]
  {
    PostedIsAnsweredExactly(c, w, i, m);
  }

  /** A request is posted exactly if there are a profile and a credential, it is not one that is answered here, a
      session that is owed is rebuilt, and a checked call fits the definitions in force or found next. */
  lemma PostedExactly(c: Config, w: Watch, i: nat, m: Message)
    ensures Goes(c, w, i, m, false) == [Sent(i, m)] || Goes(c, w, i, m, false) == []
    ensures Goes(c, w, i, m, false) == [Sent(i, m)] <==>
              && w.ready && !(c.checks && m.kind == Discover) && !m.shape.MetaNotObject?
              && (w.owes && m.kind != Initialize ==>
                    Negotiated(c.world.response(w.posted)) && Acknowledged(c.world.response(w.posted + 1)))
              && (c.checks && m.kind == ToolsCall ==>
                    && Found(c, Rebuild(c, w, m)).Some?
                    && CallFits(c.valid, Found(c, Rebuild(c, w, m)).value, m))
  {
  }

  /** What a request gets that is not posted: an error about an unsupported method or about the arguments of a call,
      or the refusal; or nothing if the relay dies. */
  lemma UnpostedIsAnsweredExactly(c: Config, w: Watch, i: nat, m: Message)
    requires m.id.Some? && Goes(c, w, i, m, false) == []
    ensures MessageOutput(c, w, i, m, false)
         == if w.ready && c.checks && m.kind == Discover then [Replied(i, m.id, Unsupported)]
            else if Dies(c, w, m) then []
            else if w.ready && Starts(c, w, m) && Checks(c, m) && Found(c, Rebuild(c, w, m)).Some?
            then [Replied(i, m.id, InvalidArguments)]
            else [Observed(FailedReceipt), Replied(i, m.id, Refused)]
  {
    CrashesExactly(c, w, m, false);
  }

  /** What is reported of a reply: tools read if a list has some, a failure if it has none, and an accepted request
      for a result of a call; and of a notification only that the client has connected. */
  lemma ReportsExactly(c: Config, w: Watch, i: nat, m: Message, r: Response)
    ensures m.kind == ToolsList && r.Response? && r.body.Reply? && r.body.result.Outcome?
            && r.body.result.tools.ToolsOf? ==>
              Counted(m, r.body)
              == [Observed(if r.body.result.tools.tools == [] then FailedReceipt else ToolsRead)]
    ensures m.kind == ToolsCall && r.Response? && r.body.Reply? ==>
              Counted(m, r.body) == if r.body.result.Missing? then [] else [Observed(RequestAccepted)]
    ensures m.kind != ToolsList && m.kind != ToolsCall && r.Response? ==> Counted(m, r.body) == []
    ensures m.id.None? ==>
              Received(c, w, i, m, false, r)
              == if && m.kind == Initialized && r.Response? && r.status < 300
                 then [Observed(Connected)] else []
  {
  }

  /** The last reply of a run that line i ends. */
  predicate RepliesLast(c: Config, w: Watch, i: nat, line: Line) {
    Stops(c, w, i, line) == Some(Broken) && DiesAfterReply(c, TakenUp(c, w, i), Asked(w, line).value)
  }

  lemma StartIsNoAnswer(c: Config, w: Watch, i: nat)
    ensures Answers(TakenOutput(c, w, i)) == []
  {
    AnswersOfOne(Observed(Started));
  }

  lemma AskedIsAnswered(c: Config, w: Watch, i: nat, m: Message, idle: bool)
    requires idle ==> m == PING
    ensures Answers(AskedOutput(c, w, i, m, idle))
         == if Dies(c, TakenUp(c, w, i), m) && !DiesAfterReply(c, TakenUp(c, w, i), m) then [] else Due(i, m, idle)
  {
    StartIsNoAnswer(c, w, i);
    MessageIsAnswered(c, TakenUp(c, w, i), i, m, idle);
    AnswersOfBoth(TakenOutput(c, w, i), MessageOutput(c, TakenUp(c, w, i), i, m, idle));
  }

  lemma LineIsAnswered(c: Config, w: Watch, i: nat, line: Line)
    ensures Answers(LineOutput(c, w, i, line))
         == if Stops(c, w, i, line).None? || RepliesLast(c, w, i, line) then ExpectedAt(i, line) else []
  {
    if Asked(w, line).Some? {
      AskedIsAnswered(c, w, i, Asked(w, line).value, line.Idle?);
    } else {
      AnswersOfOne(Observed(FailedReceipt));
    }
  }

  lemma LineSendsItself(c: Config, w: Watch, i: nat, line: Line)
    ensures LineSends(c, w, i, line) == [] || (line.Text? && LineSends(c, w, i, line) == [Sent(i, line.message)])
  {
  }

  lemma OneSentMore(before: seq<Sent>, sent: seq<Sent>, lines: seq<Line>, n: nat)
    requires 0 < n <= |lines| && InOrder(before, lines, n - 1)
    requires sent == [] || (lines[n - 1].Text? && sent == [Sent(n - 1, lines[n - 1].message)])
    ensures InOrder(before + sent, lines, n)
  {
    InOrderLonger(before, lines, n - 1);
    if sent == [] {
      assert before + sent == before;
    } else {
      InOrderStep(before, lines, n - 1, lines[n - 1].message);
    }
  }

  // ---------------------------------------------------------------------------------------------
  // What a run means for the client

  /** A line is answered once, unless it ends the run first. */
  ghost predicate AnswersLines(m: Machine) {
    forall w, i: nat, line ::
      var d := m.deal(w, i, line);
      Answers(d.output) == if d.stops.None? || d.last then ExpectedAt(i, line) else []
  }

  ghost predicate SendsLines(m: Machine) {
    forall w, i: nat, line ::
      var sends := m.deal(w, i, line).sends; sends == [] || (line.Text? && sends == [Sent(i, line.message)])
  }

  lemma StdioKeepsItsLines(c: Config)
    ensures AnswersLines(Stdio(c)) && SendsLines(Stdio(c))
  {
    forall w, i: nat, line
      ensures var d := Stdio(c).deal(w, i, line);
              Answers(d.output) == if d.stops.None? || d.last then ExpectedAt(i, line) else []
    {
      LineIsAnswered(c, w, i, line);
    }
    forall w, i: nat, line
      ensures var sends := Stdio(c).deal(w, i, line).sends;
              sends == [] || (line.Text? && sends == [Sent(i, line.message)])
    {
      LineSendsItself(c, w, i, line);
    }
  }

  function RepliesOfLine(m: Machine, lines: seq<Line>, n: nat): seq<Answer>
    requires n < |lines|
  {
    if RepliesTo(m, lines, n) then ExpectedAt(n, lines[n]) else []
  }

  lemma AnswersGrow(m: Machine, lines: seq<Line>, n: nat)
    requires AnswersLines(m) && 0 < n <= |lines|
    ensures Answers(OutputAt(m, lines, n)) == Answers(OutputAt(m, lines, n - 1)) + RepliesOfLine(m, lines, n - 1)
  {
    AnswersOfBoth(OutputAt(m, lines, n - 1), DealingAt(m, lines, n - 1).output);
  }

  lemma NothingYet(lines: seq<Line>)
    ensures Answers([Observed(Started)]) == Expected(lines[..0])
  {
    AnswersOfOne(Observed(Started));
  }

  lemma OneReplyMore(before: seq<Event>, after: seq<Event>, replies: seq<Answer>, lines: seq<Line>, n: nat)
    requires 0 < n <= |lines| && Answers(after) == Answers(before) + replies
    requires Answers(before) == Expected(lines[..n - 1]) && replies == ExpectedAt(n - 1, lines[n - 1])
    ensures Answers(after) == Expected(lines[..n])
  {
    ExpectedStep(lines, n - 1);
  }

  /** As long as the relay goes on, exactly one reply goes to each line that carries an id, in order. */
  lemma {:induction false} OneReplyEach(m: Machine, lines: seq<Line>, n: nat)
    requires AnswersLines(m) && n <= |lines| && GoesOn(m, lines, n)
    ensures Answers(OutputAt(m, lines, n)) == Expected(lines[..n])
  {
    if n == 0 {
      NothingYet(lines);
    } else {
      OneReplyEach(m, lines, n - 1);
      AnswersGrow(m, lines, n);
      OneReplyMore(OutputAt(m, lines, n - 1), OutputAt(m, lines, n), RepliesOfLine(m, lines, n - 1), lines, n);
    }
  }

  lemma NoReplyMore(before: seq<Event>, after: seq<Event>, replies: seq<Answer>)
    requires Answers(after) == Answers(before) + replies && replies == []
    ensures Answers(after) == Answers(before)
  {
  }

  lemma LastReplied(m: Machine, lines: seq<Line>, n: nat)
    requires AnswersLines(m) && 0 < n <= |lines| && GoesOn(m, lines, n - 1) && RepliesTo(m, lines, n - 1)
    ensures Answers(OutputAt(m, lines, n)) == Expected(lines[..n])
  {
    OneReplyEach(m, lines, n - 1);
    AnswersGrow(m, lines, n);
    OneReplyMore(OutputAt(m, lines, n - 1), OutputAt(m, lines, n), RepliesOfLine(m, lines, n - 1), lines, n);
  }

  lemma LastUnreplied(m: Machine, lines: seq<Line>, n: nat)
    requires AnswersLines(m) && 0 < n <= |lines| && GoesOn(m, lines, n - 1) && !RepliesTo(m, lines, n - 1)
    ensures Answers(OutputAt(m, lines, n)) == Expected(lines[..n - 1])
  {
    OneReplyEach(m, lines, n - 1);
    AnswersGrow(m, lines, n);
    NoReplyMore(OutputAt(m, lines, n - 1), OutputAt(m, lines, n), RepliesOfLine(m, lines, n - 1));
  }

  lemma EndOfRun(m: Machine, lines: seq<Line>)
    requires AnswersLines(m) && GoesOn(m, lines, |lines|)
    ensures Answers(WholeOutput(m, lines, |lines|)) == Expected(lines[..|lines|])
  {
    var before := OutputAt(m, lines, |lines|);
    var closing := if Failing(before) then [] else [Observed(Disconnected)];
    OneReplyEach(m, lines, |lines|);
    AnswersOfOne(Observed(Disconnected));
    AnswersOfBoth(before, closing);
    NoReplyMore(before, before + closing, Answers(closing));
  }

  /** In a run that ends at line n, exactly one reply has gone to each line before it that carries an id, and to
      line n if it gets its reply all the same. */
  lemma OneReplyToAll(m: Machine, lines: seq<Line>, n: nat)
    requires AnswersLines(m) && n <= |lines| && EndsAt(m, lines, n)
    ensures n < |lines| && RepliesTo(m, lines, n) ==> Answers(WholeOutput(m, lines, n)) == Expected(lines[..n + 1])
    ensures !(n < |lines| && RepliesTo(m, lines, n)) ==> Answers(WholeOutput(m, lines, n)) == Expected(lines[..n])
  {
    hide Answers, Expected, ProgressAt;
    if n == |lines| {
      EndOfRun(m, lines);
    } else if RepliesTo(m, lines, n) {
      LastReplied(m, lines, n + 1);
    } else {
      LastUnreplied(m, lines, n + 1);
    }
  }

  lemma {:induction false} ExpectedFrom(lines: seq<Line>, a: Answer)
    ensures a in Expected(lines) <==> a.index < |lines| && a in ExpectedAt(a.index, lines[a.index])
    decreases |lines|
  {
    if lines != [] {
      ExpectedFrom(lines[..|lines| - 1], a);
    }
  }

  /** A request gets a reply exactly if the run gets past its line, or dies there only after the reply. */
  lemma RequestAnsweredExactly(m: Machine, lines: seq<Line>, n: nat, k: nat)
    requires AnswersLines(m) && n <= |lines| && EndsAt(m, lines, n)
    requires k < |lines| && lines[k].Text? && lines[k].message.id.Some?
    ensures Answer(k, lines[k].message.id.value) in Answers(WholeOutput(m, lines, n))
        <==> k < n || (k == n && RepliesTo(m, lines, n))
  {
    OneReplyToAll(m, lines, n);
    var answer := Answer(k, lines[k].message.id.value);
    ExpectedFrom(lines[..n], answer);
    if n < |lines| {
      ExpectedFrom(lines[..n + 1], answer);
    }
  }

  /** The client messages that are posted are those of the lines, in order and at most once each. */
  lemma {:induction false} SentInOrder(m: Machine, lines: seq<Line>, n: nat)
    requires SendsLines(m) && n <= |lines|
    ensures InOrder(ProgressAt(m, lines, n).sent, lines, n)
  {
    if n > 0 {
      SentInOrder(m, lines, n - 1);
      OneSentMore(ProgressAt(m, lines, n - 1).sent, DealingAt(m, lines, n - 1).sends, lines, n);
    }
  }

  // ---------------------------------------------------------------------------------------------
  // A run that breaks

  /** The service is replaced after the initialization, and the new one answers with a list. */
  const Reborn := World(
    i => Some(Profile(if i == 0 then 0 else 1, "local")), _ => true,
    n => if n == 0 then Response(200, None, Reply(Some("1"), true, Outcome(true, Absent), false))
         else Response(200, None, NotAnObject))

  const Reader := Config(Reborn, false, _ => true, (_, _) => true, Profile(0, "local"))

  const Opening := [Text(Message(Some("1"), Initialize, Object, "{}", None, Null)),
                    Text(Message(Some("2"), ToolsList, Object, "{}", None, Null))]

  /** A well-formed request can go unanswered: the relay breaks, and what it has replied is the first reply only. */
  lemma RelayCanBreak()
    ensures GoesOn(Stdio(Reader), Opening, 1) && StopsAt(Stdio(Reader), Opening, 1) == Some(Broken)
    ensures Answers(WholeOutput(Stdio(Reader), Opening, 1)) == [Answer(0, "1")]
    ensures Answer(1, "2") in Expected(Opening)
  {
    hide Stdio, ProgressAt, Answers;
    FirstLine();
    StdioKeepsItsLines(Reader);
    OneReplyToAll(Stdio(Reader), Opening, 1);
    FirstExpected();
    ExpectedFrom(Opening, Answer(1, "2"));
  }

  lemma FirstExpected()
    ensures Expected(Opening[..1]) == [Answer(0, "1")]
  {
    ExpectedStep(Opening, 0);
    assert Expected(Opening[..0]) == [];
  }

  lemma FirstLine()
    ensures ProgressAt(Stdio(Reader), Opening, 1).watch
         == Watch(Profile(0, "local"), Some(0), true, Some("{}"), false, false, None, {}, 0, map[], 1)
    ensures GoesOn(Stdio(Reader), Opening, 1) && StopsAt(Stdio(Reader), Opening, 1) == Some(Broken)
    ensures !RepliesTo(Stdio(Reader), Opening, 1)
  {
    var w := Watched(Reader, []);
    assert TakenUp(Reader, w, 0) == w.(line := Some(0), ready := true);
    assert ProgressAt(Stdio(Reader), Opening, 0).watch == w;
    assert ProgressAt(Stdio(Reader), Opening, 1).watch == LineAfterwards(Reader, w, 0, Opening[0]);
    assert StopsAt(Stdio(Reader), Opening, 0).None?;
  }
}
