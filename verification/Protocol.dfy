/**
 The task protocol between a Go worker object and its PHP process.

 Two FIFO queues of flagged frames connect them.  A step is one relay operation of one
 side: a send, a receive, a failure, or the death of the process.  Both sides are cut where
 they touch a queue, so every interleaving of `execPayload`, `fetchPID` and `Stop` with
 `receive`, `send`, `error` and `handleControl` is a run.
 */
module Protocol {
  import opened Basics
  import opened PoolModel

  // ---------------------------------------------------------------- frames

  datatype Command = PidCommand(pid: nat) | StopCommand

  /** What the bytes of a frame are to `json_decode`.  It turns text that is not JSON into null, just as
      the JSON text null.  Of an object only two members are looked at: its pid, 0 when missing or empty,
      and whether it has a stop member that is not empty. */
  datatype Json = NotJson | JsonNull | JsonFalse | Object(pid: nat, stop: bool) | OtherJson

  /** The error flag marks job errors; `json` is looked at only in control frames that are not raw. */
  datatype Frame = Frame(control: bool, raw: bool, error: bool, text: string, json: Json)

  /** A received empty frame is nil in Go and null in PHP. */
  function Text(text: string): Option<string> {
    if text == "" then None else Some(text)
  }

  /** A nil slice is sent as an empty frame. */
  function OrEmpty(text: Option<string>): string {
    if text.Some? then text.value else ""
  }

  /** The context may be any bytes, so it may decode to anything, a stop command included. */
  function ContextFrame(rqs: Payload, json: Json): Frame {
    Frame(true, true, false, OrEmpty(rqs.context), json)
  }

  function BodyFrame(rqs: Payload): Frame {
    Frame(false, false, false, OrEmpty(rqs.body), OtherJson)
  }

  function CommandText(command: Command): (text: string)
    ensures text != ""
  {
    match command
    case StopCommand => STOP_REQUEST
    case PidCommand(pid) => "{\"pid\":" + Digits(pid) + "}"
  }

  function Digits(n: nat): string {
    (if n < 10 then "" else Digits(n / 10)) + [('0' as int + n % 10) as char]
  }

  function CommandJson(command: Command): Json {
    match command
    case StopCommand => Object(0, true)
    case PidCommand(pid) => Object(pid, false)
  }

  function CommandFrame(command: Command): Frame {
    Frame(true, false, false, CommandText(command), CommandJson(command))
  }

  // ---------------------------------------------------------------- the PHP side

  /** The header that `receive` fills in: null, the raw text, or the decoded value. */
  datatype Header = NoHeader | RawHeader(text: Option<string>) | ParsedHeader(json: Json)

  /** What the application answers a task with; `stop()` is `Send(None, Some(STOP_REQUEST))`. */
  datatype Answer = Send(payload: Option<string>, header: Option<string>) | Error(message: string)

  /** The frames of an answer, in sending order. */
  function AnswerFrames(a: Answer): seq<Frame> {
    match a
    case Error(m) => [Frame(true, true, true, m, OtherJson)]
    case Send(p, h) => [Frame(true, h.Some?, false, OrEmpty(h), OtherJson), PayloadFrame(OrEmpty(p))]
  }

  function PayloadFrame(payload: string): Frame {
    Frame(false, true, false, payload, OtherJson)
  }

  /** What one frame makes `receive` do; a control frame with a pid is answered first. */
  datatype Reaction =
    | GoOn(header: Header, answersPid: bool)        // wait for the next frame
    | ReturnStop(answersPid: bool)                  // null body and null header
    | ReturnBody(body: Option<string>)
    | ReturnError(message: string)
    | Throw

  /** `receive` with `handleControl` inlined. */
  function React(f: Frame): Reaction {
    if f.control then
      if f.raw || f.text == "" then GoOn(RawHeader(Text(f.text)), false)
      else
        match f.json
        case NotJson => GoOn(NoHeader, false)
        case JsonNull => GoOn(NoHeader, false)
        case JsonFalse => Throw
        case Object(pid, stop) => if stop then ReturnStop(pid != 0) else GoOn(ParsedHeader(f.json), pid != 0)
        case OtherJson => GoOn(ParsedHeader(f.json), false)
    else if f.error then ReturnError(f.text)
    else ReturnBody(Text(f.text))
  }

  /** `receive` returns null, which is documented to mean that the process must stop. */
  predicate ReturnsNull(r: Reaction) {
    r.ReturnStop? || r == ReturnBody(None)
  }

  datatype Task = Task(header: Header, body: Option<string>)

  datatype Php =
    | Receiving(header: Header)
    | AnsweringPid(next: Php)       // about to send the pid
    | Serving(task: Task)
    | Sending(payload: string, task: Task)  // the header frame is out, the payload frame is not
    | LeftLoop                      // took what it received for the stop command
    | Confused                      // got a frame no Go worker sends
    | Dead

  // ---------------------------------------------------------------- the Go side

  /** The outcome of one execution, as `execPayload` returns it. */
  function Read(a: Answer): Outcome {
    match a
    case Error(m) => JobError(m)
    case Send(p, h) => Reply(Payload(Text(OrEmpty(h)), Text(OrEmpty(p))))
  }

  datatype Go =
    | PidSend
    | PidReceive
    | Idle                          // Ready, mutex free
    | SendContext(rqs: Payload)
    | SendBody(rqs: Payload)
    | ReceiveHead
    | ReceiveBody(context: Option<string>)
    | StopSend
    | StopWait
    | Broken                        // Errored: a relay operation failed
    | Malformed                     // Errored: the response had no control flag
    | Refused                       // the process reported another pid

  // ---------------------------------------------------------------- both

  datatype Link = Link(
    go: Go,
    php: Php,
    toPhp: seq<Frame>,
    toGo: seq<Frame>,
    goPid: nat,                     // os.Getpid() of the server
    phpPid: nat,                    // getmypid() of the script that answers
    startedPid: nat,                // pid of the process that was started
    requests: seq<Payload>,         // payloads handed to Exec
    tasks: seq<Task>,               // tasks handed to the application
    answers: seq<Answer>,           // answers of the application
    results: seq<Outcome>,          // replies and job errors returned by Exec
    stopped: bool)                  // Stop has sent its command

  predicate Init(s: Link) {
    && s.goPid > 0
    && s == Link(PidSend, Receiving(NoHeader), [], [], s.goPid, s.phpPid, s.startedPid, [], [], [], [], false)
  }

  datatype Act =
    | SendPid | ReceivePid
    | Begin(rqs: Payload) | PutContext(json: Json) | PutBody | GetHead | GetBody | GoFails
    | BeginStop | PutStop
    | PhpGets(leave: bool) | PhpSendsPid | PhpAnswers(answer: Answer) | PhpSendsPayload | PhpDies

  /** `fetchPID` and the comparison with the pid of the started process. */
  predicate PidStep(s: Link, s': Link, a: Act) {
    match a
    case SendPid =>
      && s.go.PidSend?
      && s' == s.(go := PidReceive, toPhp := s.toPhp + [CommandFrame(PidCommand(s.goPid))])
    case ReceivePid =>
      && s.go.PidReceive? && s.toGo != []
      && var f := s.toGo[0];
         s' == s.(toGo := s.toGo[1..],
                  go := if f.control && f.json == CommandJson(PidCommand(s.startedPid)) then Idle else Refused)
    case _ => false
  }

  predicate ExecStep(s: Link, s': Link, a: Act) {
    match a
    case Begin(rqs) =>
      && s.go.Idle?
      && s' == s.(go := SendContext(rqs), requests := s.requests + [rqs])
    case PutContext(json) =>
      && s.go.SendContext?
      && s' == s.(go := SendBody(s.go.rqs), toPhp := s.toPhp + [ContextFrame(s.go.rqs, json)])
    case PutBody =>
      && s.go.SendBody?
      && s' == s.(go := ReceiveHead, toPhp := s.toPhp + [BodyFrame(s.go.rqs)])
    case GetHead =>
      && s.go.ReceiveHead? && s.toGo != []
      && var f := s.toGo[0];
         var rest := s.(toGo := s.toGo[1..]);
         if !f.control then
           s' == rest.(go := Malformed)
         else if f.error then
           s' == rest.(go := Idle, results := s.results + [JobError(f.text)])
         else
           s' == rest.(go := ReceiveBody(Text(f.text)))
    case GetBody =>
      && s.go.ReceiveBody? && s.toGo != []
      && s' == s.(go := Idle, toGo := s.toGo[1..],
                  results := s.results + [Reply(Payload(s.go.context, Text(s.toGo[0].text)))])
    case GoFails =>
      && (s.go.SendContext? || s.go.SendBody? || s.go.ReceiveHead? || s.go.ReceiveBody?)
      && s' == s.(go := Broken)
    case _ => false
  }

  predicate StopStep(s: Link, s': Link, a: Act) {
    match a
    case BeginStop =>
      && (s.go.Idle? || s.go.Broken? || s.go.Malformed?)
      && s' == s.(go := StopSend)
    case PutStop =>
      && s.go.StopSend?
      && s' == s.(go := StopWait, toPhp := s.toPhp + [CommandFrame(StopCommand)], stopped := true)
    case _ => false
  }

  /** What PHP takes for false. */
  predicate Falsy(body: Option<string>) {
    body.None? || body.value == "0"
  }

  /** Where PHP goes after a frame.  The documented loop leaves on every body that PHP takes for false; one
      that looks at the value or at the header may stay when it is not the stop command. */
  function After(r: Reaction, header: Header, leave: bool): Php {
    match r
    case GoOn(h, pid) => if pid then AnsweringPid(Receiving(h)) else Receiving(h)
    case ReturnBody(body) => if Falsy(body) && leave then LeftLoop else Serving(Task(header, body))
    case ReturnStop(pid) => if pid then AnsweringPid(LeftLoop) else LeftLoop
    case ReturnError(_) => Confused
    case Throw => Confused
  }

  predicate PhpStep(s: Link, s': Link, a: Act) {
    match a
    case PhpGets(leave) =>
      && s.php.Receiving? && s.toPhp != []
      && var r := React(s.toPhp[0]);
         var php := After(r, s.php.header, leave);
         s' == s.(toPhp := s.toPhp[1..], php := php,
                  tasks := if php.Serving? then s.tasks + [php.task] else s.tasks)
    case PhpSendsPid =>
      && s.php.AnsweringPid?
      && s' == s.(php := s.php.next, toGo := s.toGo + [CommandFrame(PidCommand(s.phpPid))])
    case PhpAnswers(answer) =>
      && s.php.Serving?
      && s' == s.(toGo := s.toGo + [AnswerFrames(answer)[0]],
                  answers := s.answers + [answer],
                  php := if answer.Send? then Sending(OrEmpty(answer.payload), s.php.task)
                         else Receiving(s.php.task.header))
    case PhpSendsPayload =>
      && s.php.Sending?
      && s' == s.(php := Receiving(s.php.task.header), toGo := s.toGo + [PayloadFrame(s.php.payload)])
    case PhpDies => s' == s.(php := Dead)
    case _ => false
  }

  predicate Does(s: Link, s': Link, a: Act) {
    PidStep(s, s', a) || ExecStep(s, s', a) || StopStep(s, s', a) || PhpStep(s, s', a)
  }

  ghost predicate Next(s: Link, s': Link) {
    exists a :: Does(s, s', a)
  }

  ghost predicate StepAt(r: seq<Link>, i: nat) {
    i + 1 < |r| ==> Next(r[i], r[i + 1])
  }

  ghost predicate Run(r: seq<Link>) {
    |r| > 0 && Init(r[0]) && forall i: nat :: StepAt(r, i)
  }

  // ---------------------------------------------------------------- what belongs together

  /** The task PHP sees for a request. */
  function Delivered(rqs: Payload): Task {
    Task(RawHeader(Text(OrEmpty(rqs.context))), Text(OrEmpty(rqs.body)))
  }

  /** The logs agree position by position, and each is at most one behind the one before. */
  ghost predicate Logs(s: Link) {
    && |s.results| <= |s.answers| <= |s.tasks| <= |s.requests| <= |s.results| + 1
    && (s.php.Serving? ==> |s.answers| < |s.tasks|)
    && (forall i :: 0 <= i < |s.tasks| ==> s.tasks[i] == Delivered(s.requests[i]))
    && (forall i :: 0 <= i < |s.results| ==> s.results[i] == Read(s.answers[i]))
  }

  /** PHP is inside `receive`, or the process has died. */
  predicate Waits(php: Php) {
    php.Receiving? || php.Dead?
  }

  /** Nothing is in flight and PHP waits. */
  predicate Quiet(s: Link) {
    s.toPhp == [] && s.toGo == [] && Waits(s.php)
  }

  predicate IsContext(f: Frame, rqs: Payload) {
    f == ContextFrame(rqs, f.json)
  }

  /** PHP has the context of rqs and waits for its body. */
  predicate HasContext(s: Link, rqs: Payload) {
    s.php == Receiving(Delivered(rqs).header) || s.php.Dead?
  }

  /** PHP has not taken the body of the current request out of the frames q. */
  predicate Untaken(s: Link, q: seq<Frame>) {
    && s.requests != [] && |s.tasks| == |s.requests| - 1
    && var rqs := s.requests[|s.requests| - 1];
       if |q| == 2 then IsContext(q[0], rqs) && q[1] == BodyFrame(rqs) && Waits(s.php)
       else if |q| == 1 then (IsContext(q[0], rqs) && Waits(s.php)) || (q[0] == BodyFrame(rqs) && HasContext(s, rqs))
       else false
  }

  /** Go has sent the context only. */
  predicate ContextSent(s: Link, rqs: Payload) {
    && s.requests != [] && rqs == s.requests[|s.requests| - 1] && |s.tasks| == |s.requests| - 1
    && s.toGo == []
    && if |s.toPhp| == 1 then IsContext(s.toPhp[0], rqs) && Waits(s.php)
       else s.toPhp == [] && HasContext(s, rqs)
  }

  /** Go has sent the whole request and PHP has not taken its body. */
  predicate RequestSent(s: Link) {
    && s.toGo == [] && Untaken(s, s.toPhp)
    && (|s.toPhp| == 1 ==> s.toPhp[0] == BodyFrame(s.requests[|s.requests| - 1]))
  }

  /** PHP has taken the current request and not answered it. */
  predicate AtTask(s: Link) {
    && s.toPhp == [] && s.toGo == []
    && |s.answers| < |s.requests|
    && if s.php.Serving? then |s.tasks| == |s.requests| else s.php.LeftLoop? || s.php.Dead?
  }

  /** PHP has answered the current request; Go has read the first `taken` frames of the answer. */
  predicate Downstream(s: Link, taken: nat) {
    && |s.answers| == |s.requests| > 0
    && s.toPhp == []
    && var a := s.answers[|s.answers| - 1];
       var frames := AnswerFrames(a);
       && taken < |frames|
       && match s.php
          case Sending(payload, _) => a.Send? && payload == OrEmpty(a.payload) && s.toGo == frames[taken..1]
          case Receiving(_) => s.toGo == frames[taken..]
          case Dead => s.toGo == frames[taken..] || s.toGo == frames[taken..1]
          case _ => false
  }

  predicate Handshake(s: Link) {
    && s.requests == []
    && (|| (s.toPhp == [CommandFrame(PidCommand(s.goPid))] && s.toGo == [] && Waits(s.php))
        || (s.toPhp == [] && s.toGo == [] && ((s.php.AnsweringPid? && s.php.next.Receiving?) || s.php.Dead?))
        || (s.toPhp == [] && s.toGo == [CommandFrame(PidCommand(s.phpPid))] && Waits(s.php)))
  }

  /** The frames PHP has not taken, apart from a final stop command. */
  function BeforeStop(q: seq<Frame>): seq<Frame> {
    if q != [] && q[|q| - 1] == CommandFrame(StopCommand) then q[..|q| - 1] else q
  }

  /** Go has given the exchange up; whatever PHP still takes belongs to the last request. */
  predicate Adrift(s: Link) {
    && !s.php.AnsweringPid?
    && (BeforeStop(s.toPhp) == [] || Untaken(s, BeforeStop(s.toPhp)))
    && (s.stopped || BeforeStop(s.toPhp) == s.toPhp)
  }

  /** The joint state of the two programs and the two queues. */
  predicate Joint(s: Link) {
    match s.go
    case PidSend => s.requests == [] && Quiet(s)
    case PidReceive => Handshake(s)
    case Idle => Quiet(s) && |s.results| == |s.requests|
    case SendContext(rqs) =>
      Quiet(s) && s.requests != [] && rqs == s.requests[|s.requests| - 1] && |s.tasks| == |s.requests| - 1
    case SendBody(rqs) => ContextSent(s, rqs)
    case ReceiveHead => |s.results| == |s.requests| - 1 && (RequestSent(s) || AtTask(s) || Downstream(s, 0))
    case ReceiveBody(context) =>
      && |s.results| == |s.requests| - 1
      && Downstream(s, 1)
      && context == Text(OrEmpty(s.answers[|s.answers| - 1].header))
    case Malformed => false
    case Refused => s.requests == [] && Quiet(s) && s.startedPid != s.phpPid
    case _ => Adrift(s)
  }

  /** PHP leaves its loop only for the stop command or for a request whose body it takes for false. */
  predicate LeavesForCause(s: Link) {
    && !s.php.Confused?
    && (s.stopped ==> s.go.StopWait?)
    && (s.php.LeftLoop? ==>
          || s.stopped
          || (s.requests != [] && OrEmpty(s.requests[|s.requests| - 1].body) in {"", "0"}))
  }

  /** The worker is used only if the process that was started is the one that answers. */
  predicate PidChecked(s: Link) {
    s.go.PidSend? || s.go.PidReceive? || (s.go.Refused? <==> s.startedPid != s.phpPid)
  }

  /** The command of a Stop is the last frame on its way to PHP until PHP has taken it, unless PHP is out of
      its loop already. */
  predicate StopArrives(s: Link) {
    s.stopped ==>
      || (s.toPhp != [] && s.toPhp[|s.toPhp| - 1] == CommandFrame(StopCommand))
      || s.php.LeftLoop? || s.php.Dead?
  }

  ghost predicate Inv(s: Link) {
    Logs(s) && Joint(s) && LeavesForCause(s) && PidChecked(s) && StopArrives(s) && s.goPid > 0
  }

  // ---------------------------------------------------------------- every step keeps it

  lemma PidKeeps(s: Link, s': Link, a: Act)
    requires Inv(s) && PidStep(s, s', a)
    ensures Inv(s')
  {
  }

  lemma SendsKeep(s: Link, s': Link, a: Act)
    requires Inv(s) && ExecStep(s, s', a) && !a.GetHead? && !a.GetBody? && !a.GoFails?
    ensures Inv(s')
  {
  }

  lemma GetsKeep(s: Link, s': Link, a: Act)
    requires Inv(s) && ExecStep(s, s', a) && (a.GetHead? || a.GetBody?)
    ensures Inv(s')
  {
  }

  lemma FailKeeps(s: Link, s': Link)
    requires Inv(s) && ExecStep(s, s', GoFails)
    ensures Inv(s')
  {
  }

  lemma StopKeeps(s: Link, s': Link, a: Act)
    requires Inv(s) && StopStep(s, s', a)
    ensures Inv(s')
  {
  }

  /** PHP takes a frame while Go is in the exchange. */
  lemma PhpGetsKeeps(s: Link, s': Link, leave: bool)
    requires Inv(s) && PhpStep(s, s', PhpGets(leave)) && !Adrift(s)
    ensures Inv(s')
  {
  }

  /** PHP takes the context of the last request after Go has given up or sent its stop command. */
  lemma PhpGetsRestContextKeeps(s: Link, s': Link, leave: bool)
    requires Inv(s) && PhpStep(s, s', PhpGets(leave)) && Adrift(s)
    requires BeforeStop(s.toPhp) != [] && s.toPhp[0].control
    ensures Inv(s')
  {
  }

  /** PHP takes the body of the last request then. */
  lemma PhpGetsRestBodyKeeps(s: Link, s': Link, leave: bool)
    requires Inv(s) && PhpStep(s, s', PhpGets(leave)) && Adrift(s)
    requires BeforeStop(s.toPhp) != [] && !s.toPhp[0].control
    ensures Inv(s')
  {
    assert |BeforeStop(s.toPhp)| == 1;
  }

  /** PHP takes the stop command itself. */
  lemma PhpGetsStopKeeps(s: Link, s': Link, leave: bool)
    requires Inv(s) && PhpStep(s, s', PhpGets(leave)) && Adrift(s) && BeforeStop(s.toPhp) == []
    ensures Inv(s')
  {
    assert s.toPhp == [CommandFrame(StopCommand)];
  }

  lemma PhpAnswersKeeps(s: Link, s': Link, answer: Answer)
    requires Inv(s) && PhpStep(s, s', PhpAnswers(answer))
    ensures Inv(s')
  {
  }

  lemma PhpSendsKeeps(s: Link, s': Link, a: Act)
    requires Inv(s) && PhpStep(s, s', a) && (a.PhpSendsPid? || a.PhpSendsPayload?)
    ensures Inv(s')
  {
    if a.PhpSendsPid? {
      PhpSendsPidKeeps(s, s');
    } else {
      PhpSendsPayloadKeeps(s, s');
    }
  }

  lemma PhpSendsPidKeeps(s: Link, s': Link)
    requires Inv(s) && PhpStep(s, s', PhpSendsPid)
    ensures Inv(s')
  {
    assert s.go.PidReceive?;
  }

  lemma PhpSendsPayloadKeeps(s: Link, s': Link)
    requires Inv(s) && PhpStep(s, s', PhpSendsPayload)
    ensures Inv(s')
  {
  }

  lemma PhpDiesKeeps(s: Link, s': Link)
    requires Inv(s) && PhpStep(s, s', PhpDies)
    ensures Inv(s')
  {
  }

  lemma ExecKeeps(s: Link, s': Link, a: Act)
    requires Inv(s) && ExecStep(s, s', a)
    ensures Inv(s')
  {
    if a.GetHead? || a.GetBody? {
      GetsKeep(s, s', a);
    } else if a.GoFails? {
      FailKeeps(s, s');
    } else {
      SendsKeep(s, s', a);
    }
  }

  lemma PhpKeeps(s: Link, s': Link, a: Act)
    requires Inv(s) && PhpStep(s, s', a)
    ensures Inv(s')
  {
    match a
    case PhpGets(leave) =>
      if Adrift(s) && BeforeStop(s.toPhp) == [] {
        PhpGetsStopKeeps(s, s', leave);
      } else if Adrift(s) && s.toPhp[0].control {
        PhpGetsRestContextKeeps(s, s', leave);
      } else if Adrift(s) {
        PhpGetsRestBodyKeeps(s, s', leave);
      } else {
        PhpGetsKeeps(s, s', leave);
      }
    case PhpAnswers(answer) => PhpAnswersKeeps(s, s', answer);
    case PhpDies => PhpDiesKeeps(s, s');
    case _ => PhpSendsKeeps(s, s', a);
  }

  lemma StepKeeps(s: Link, s': Link)
    requires Inv(s) && Next(s, s')
    ensures Inv(s')
  {
    var a :| Does(s, s', a);
    if PidStep(s, s', a) {
      PidKeeps(s, s', a);
    } else if StopStep(s, s', a) {
      StopKeeps(s, s', a);
    } else if PhpStep(s, s', a) {
      PhpKeeps(s, s', a);
    } else {
      ExecKeeps(s, s', a);
    }
  }

  lemma {:induction false} Always(r: seq<Link>, i: nat)
    requires Run(r) && i < |r|
    ensures Inv(r[i])
  {
    if i > 0 {
      Always(r, i - 1);
      assert StepAt(r, i - 1);
      StepKeeps(r[i - 1], r[i]);
    }
  }

  // ---------------------------------------------------------------- what runs guarantee

  /** Whenever the worker is Ready and unlocked, both queues are empty and PHP is at `receive` (unless
      its process has died), every request has been delivered and answered, and the n-th result is what
      the application answered to the n-th request. */
  lemma ReadyMeansInStep(r: seq<Link>, i: nat)
    requires Run(r) && i < |r| && r[i].go.Idle?
    ensures r[i].toPhp == [] && r[i].toGo == []
    ensures r[i].php.Receiving? || r[i].php.Dead?
    ensures |r[i].requests| == |r[i].tasks| == |r[i].answers| == |r[i].results|
    ensures forall n :: 0 <= n < |r[i].requests| ==>
              r[i].tasks[n] == Delivered(r[i].requests[n]) && r[i].results[n] == Read(r[i].answers[n])
  {
    Always(r, i);
  }

  /** In every state each task the application got is the request with the same number, and each result
      Exec returned is the answer with the same number; no response is ever malformed, and PHP is never
      handed a frame it cannot use. */
  lemma NothingMixedUp(r: seq<Link>, i: nat)
    requires Run(r) && i < |r|
    ensures |r[i].results| <= |r[i].answers| <= |r[i].tasks| <= |r[i].requests| <= |r[i].results| + 1
    ensures forall n :: 0 <= n < |r[i].tasks| ==> r[i].tasks[n] == Delivered(r[i].requests[n])
    ensures forall n :: 0 <= n < |r[i].results| ==> r[i].results[n] == Read(r[i].answers[n])
    ensures !r[i].go.Malformed? && !r[i].php.Confused?
    ensures r[i].startedPid == r[i].phpPid ==> !r[i].go.Refused?
  {
    Always(r, i);
  }

  /** Once the pids are exchanged, the worker is refused exactly when the script that answers is not the
      process that was started; and a refused worker never gets a request. */
  lemma RefusedExactly(r: seq<Link>, i: nat)
    requires Run(r) && i < |r| && !r[i].go.PidSend? && !r[i].go.PidReceive?
    ensures r[i].go.Refused? <==> r[i].startedPid != r[i].phpPid
    ensures r[i].go.Refused? ==> r[i].requests == []
  {
    Always(r, i);
  }

  /** Once Stop has sent its command, PHP is out of its loop or dead, or still has the command to take, after
      everything else. */
  lemma StopEndsLoop(r: seq<Link>, i: nat)
    requires Run(r) && i < |r| && r[i].stopped
    ensures r[i].php.LeftLoop? || r[i].php.Dead?
            || (r[i].toPhp != [] && r[i].toPhp[|r[i].toPhp| - 1] == CommandFrame(StopCommand))
  {
    Always(r, i);
  }

  // ---------------------------------------------------------------- what null and exceptions mean

  /** Frames that make `receive` return null: a stop command sent as such, and an empty body. */
  lemma NullFrames(f: Frame)
    ensures ReturnsNull(React(f)) <==>
              || (f.control && !f.raw && f.text != "" && f.json.Object? && f.json.stop)
              || (!f.control && !f.error && f.text == "")
  {
  }

  /** Text that is not JSON is documented to throw.  It does not: `receive` waits for the next frame,
      with a null header, just as for the JSON text null. */
  lemma InvalidJsonGoesOn(f: Frame)
    requires f.control && !f.raw && f.text != "" && f.json.NotJson?
    ensures React(f) == GoOn(NoHeader, false) && React(f) == React(f.(json := JsonNull))
  {
  }

  /** The exception is thrown for exactly one JSON text, false. */
  lemma ThrowsExactly(f: Frame)
    ensures React(f).Throw? <==> f.control && !f.raw && f.text != "" && f.json == JsonFalse
  {
  }

  /** The body of the last request. */
  predicate IsLastBody(s: Link, f: Frame) {
    s.requests != [] && f == BodyFrame(s.requests[|s.requests| - 1])
  }

  /** A frame that Go has sent and PHP has not taken. */
  predicate FromGo(s: Link, f: Frame) {
    || f == CommandFrame(PidCommand(s.goPid))
    || (s.requests != [] && IsContext(f, s.requests[|s.requests| - 1]))
    || IsLastBody(s, f)
    || (s.stopped && f == CommandFrame(StopCommand))
  }

  lemma UntakenFromGo(s: Link, q: seq<Frame>, k: nat)
    requires Untaken(s, q) && k < |q|
    ensures FromGo(s, q[k])
  {
  }

  /** At any time, what PHP has still to take is the pid command, the context or the body of the last
      request, or the command of a Stop. */
  lemma QueueFromGo(r: seq<Link>, i: nat, k: nat)
    requires Run(r) && i < |r| && k < |r[i].toPhp|
    ensures FromGo(r[i], r[i].toPhp[k])
  {
    Always(r, i);
    var s := r[i];
    if Adrift(s) && k < |BeforeStop(s.toPhp)| {
      UntakenFromGo(s, BeforeStop(s.toPhp), k);
    } else if Untaken(s, s.toPhp) {
      UntakenFromGo(s, s.toPhp, k);
    }
  }

  /** No frame that is ever on its way to PHP makes `receive` throw or return an Error. */
  lemma NothingThrows(r: seq<Link>, i: nat, k: nat)
    requires Run(r) && i < |r| && k < |r[i].toPhp|
    ensures !React(r[i].toPhp[k]).Throw? && !React(r[i].toPhp[k]).ReturnError?
  {
    QueueFromGo(r, i, k);
    ThrowsExactly(r[i].toPhp[k]);
  }

  /** In every run, what PHP takes next makes `receive` return null exactly when it is the command of a
      Stop that was called, or the empty body of the last request.  No context does, whatever it decodes to. */
  lemma NullExactly(r: seq<Link>, i: nat)
    requires Run(r) && i < |r| && r[i].toPhp != []
    ensures ReturnsNull(React(r[i].toPhp[0])) <==>
              || (r[i].stopped && r[i].toPhp[0] == CommandFrame(StopCommand))
              || (IsLastBody(r[i], r[i].toPhp[0]) && r[i].toPhp[0].text == "")
  {
    QueueFromGo(r, i, 0);
    NullFrames(r[i].toPhp[0]);
  }

  /** The documented loop is left in a step exactly when PHP takes the command of a Stop, or the body of the
      last request and that is empty or "0". */
  lemma LeavesExactly(r: seq<Link>, i: nat)
    requires Run(r) && i + 1 < |r| && PhpStep(r[i], r[i + 1], PhpGets(true))
    ensures r[i + 1].php.LeftLoop? <==>
              || (r[i].stopped && r[i].toPhp[0] == CommandFrame(StopCommand))
              || (IsLastBody(r[i], r[i].toPhp[0]) && r[i].toPhp[0].text in {"", "0"})
  {
    QueueFromGo(r, i, 0);
  }

  /** While the last request has a body other than "0", PHP is out of its loop only after Stop has sent its
      command. */
  lemma LeavesOnlyForStop(r: seq<Link>, i: nat)
    requires Run(r) && i < |r| && r[i].php.LeftLoop?
    requires r[i].requests != [] ==> OrEmpty(r[i].requests[|r[i].requests| - 1].body) !in {"", "0"}
    ensures r[i].stopped
  {
    Always(r, i);
  }

  ghost predicate Reachable(s: Link) {
    exists r :: Run(r) && r[|r| - 1] == s
  }

  lemma Reach(s: Link, s': Link, a: Act)
    requires Reachable(s) && Does(s, s', a)
    ensures Reachable(s')
  {
    var r :| Run(r) && r[|r| - 1] == s;
    var longer := r + [s'];
    forall i: nat
      ensures StepAt(longer, i)
    {
      assert StepAt(r, i);
      assert Next(s, s');
    }
    assert Run(longer);
  }

  /** A worker whose process is about to report its pid. */
  lemma GreetedLink(goPid: nat, phpPid: nat) returns (s: Link)
    requires goPid > 0
    ensures Reachable(s) && s.go.PidReceive? && s.toPhp == [] && s.toGo == [] && !s.stopped
    ensures s.phpPid == s.startedPid == phpPid
    ensures s.php == AnsweringPid(Receiving(ParsedHeader(Object(goPid, false))))
  {
    var s0 := Link(PidSend, Receiving(NoHeader), [], [], goPid, phpPid, phpPid, [], [], [], [], false);
    assert Run([s0]) && [s0][|[s0]| - 1] == s0;
    var s1 := s0.(go := PidReceive, toPhp := [CommandFrame(PidCommand(goPid))]);
    assert PidStep(s0, s1, SendPid);
    Reach(s0, s1, SendPid);
    assert React(s1.toPhp[0]) == GoOn(ParsedHeader(Object(goPid, false)), true);
    s := s1.(toPhp := [], php := AnsweringPid(Receiving(ParsedHeader(Object(goPid, false)))));
    assert PhpStep(s1, s, PhpGets(true));
    Reach(s1, s, PhpGets(true));
  }

  /** A worker after its pid exchange. */
  lemma ReadyLink(goPid: nat, phpPid: nat) returns (s: Link)
    requires goPid > 0
    ensures Reachable(s) && s.go.Idle? && s.php.Receiving? && s.toPhp == [] && s.toGo == [] && !s.stopped
  {
    var s2 := GreetedLink(goPid, phpPid);
    var s3 := s2.(php := s2.php.next, toGo := [CommandFrame(PidCommand(phpPid))]);
    assert PhpStep(s2, s3, PhpSendsPid);
    Reach(s2, s3, PhpSendsPid);
    s := s3.(toGo := [], go := Idle);
    assert PidStep(s3, s, ReceivePid);
    Reach(s3, s, ReceivePid);
  }

  /** A request with the given body is on its way, and PHP has its context. */
  lemma BodyOnItsWay(body: Option<string>) returns (s: Link)
    ensures Reachable(s) && s.php.Receiving? && !s.stopped
    ensures s.requests != [] && s.requests[|s.requests| - 1].body == body
    ensures s.toPhp == [BodyFrame(s.requests[|s.requests| - 1])]
  {
    var rqs := Payload(Some("context"), body);
    var s0 := ReadyLink(1, 2);
    var s1 := s0.(go := SendContext(rqs), requests := s0.requests + [rqs]);
    assert ExecStep(s0, s1, Begin(rqs));
    Reach(s0, s1, Begin(rqs));
    var s2 := s1.(go := SendBody(rqs), toPhp := [ContextFrame(rqs, OtherJson)]);
    assert ExecStep(s1, s2, PutContext(OtherJson));
    Reach(s1, s2, PutContext(OtherJson));
    var s3 := s2.(toPhp := [], php := Receiving(RawHeader(Some("context"))));
    assert PhpStep(s2, s3, PhpGets(true));
    Reach(s2, s3, PhpGets(true));
    s := s3.(go := ReceiveHead, toPhp := [BodyFrame(rqs)]);
    assert ExecStep(s3, s, PutBody);
    Reach(s3, s, PutBody);
  }

  /** PHP is out of its loop with the given body as that of the last request, and nobody sent a stop. */
  ghost predicate LeftUnasked(s: Link, body: Option<string>) {
    Reachable(s) && s.php.LeftLoop? && !s.stopped && s.requests != [] && s.requests[|s.requests| - 1].body == body
  }

  /** A request without a body, with an empty one, or with the body "0" does take PHP out of the documented
      loop, although nobody asked it to stop. */
  lemma FalsyBodyEndsLoop(body: Option<string>)
    requires OrEmpty(body) in {"", "0"}
    ensures exists s :: LeftUnasked(s, body)
  {
    var s4 := BodyOnItsWay(body);
    var s5 := s4.(toPhp := [], php := LeftLoop);
    assert PhpStep(s4, s5, PhpGets(true));
    Reach(s4, s5, PhpGets(true));
    assert LeftUnasked(s5, body);
  }

  /** The pool reads an answer as a stop request exactly when the application sent an empty payload
      under the stop header; `stop()` does, a job error never does. */
  lemma StopRequestRecognised(a: Answer)
    ensures Read(a).Reply? && IsStopRequest(Read(a).rsp)
            <==> a.Send? && OrEmpty(a.payload) == "" && a.header == Some(STOP_REQUEST)
  {
  }
}
