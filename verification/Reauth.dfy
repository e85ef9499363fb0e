/** The reconnect loop: a polled browser tab, restarted OAuth flows and one careful click. */
module Reauth {
  import opened Basics
  import Credential

  const FLOW_TTL_MS: int := 270_000
  const WINDOW_MS: int := 900_000
  const FLOW_RETRY_MS: int := 30_000
  const UNREADABLE_LIMIT: nat := 5
  const POLL_MS: int := 1_000

  /** What the loop looks at in a URL; a URL that does not parse has no host, path or state. */
  datatype Url = Url(secure: bool, host: string, path: string, state: Option<string>, isCallback: bool)

  const BLANK: Url := Url(false, "", "", None, false)

  datatype Flow = Flow(url: Url, state: string, at: int)

  predicate OnClaude(url: Url) {
    url.host == "claude.ai"
  }

  predicate OnAuthorize(url: Url) {
    OnClaude(url) && "/oauth/authorize" <= url.path
  }

  // ------------------------------------------------------------ what the loop meets

  /** The proxy's answer to a request for a flow, read at `at`; it has no URL if there is none or it does not parse.
      `fatal` says of an error, here and below, that its message tells of a dead connection or tab. */
  datatype Start = Answered(status: int, url: Option<Url>, state: string, at: int) | NoAnswer(fatal: bool)

  datatype History = Unread(fatal: bool) | Entries(urls: seq<Url>, current: Option<int>)

  datatype EmailRead = NotRead(fatal: bool) | NotText | Text(email: string)

  datatype ClickAnswer = NoReply(fatal: bool) | Clicked | NoButton

  datatype Sent = Ok | NotSent(fatal: bool)

  /** One poll: the clock at each place it is read, and every answer it may ask for. */
  datatype Poll = Poll(guard: int, history: History, judged: int, retried: int, paused: int, start: Start, sent: Sent,
                       email: EmailRead, click: ClickAnswer)

  /** The account to authorize, and how e-mail addresses are compared. */
  datatype Account = Account(expected: string, normal: string -> string)

  // ------------------------------------------------------------ what the loop does

  datatype Event =
    | Issued(flow: Flow)
    | Navigated(url: Url)
    | Read(email: string)
    | Tried(shown: Url, judged: int)
    | Acknowledged
    | HandedOver(callback: Url, state: string)

  datatype Phase = Checking | WaitingForLogin | Authorizing

  datatype State = State(flow: Flow, issued: map<string, Flow>, clickedFor: Option<string>, retryFlowAt: int,
                         unreadable: nat, phase: Phase, trace: seq<Event>)

  datatype Signal = Again | Found(callback: Url) | WrongAccount | Broken

  /** Only claude.ai's own authorize page is accepted from the proxy. */
  function Started(start: Start): Result<Flow, bool> {
    match start
    case NoAnswer(fatal) => Err(fatal)
    case Answered(status, url, state, at) =>
      if status != 200 || url.None? || state == "" then Err(false)
      else if !url.value.secure || !OnAuthorize(url.value) then Err(false)
      else Result.Ok(Flow(url.value, state, at))
  }

  function Begun(flow: Flow): State {
    State(flow, map[flow.state := flow], None, 0, 0, Checking, [Issued(flow), Navigated(flow.url)])
  }

  function StateOf(url: Url): string {
    if url.state.Some? then url.state.value else ""
  }

  /** The first callback in the tab's history that belongs to a flow of this job. */
  function FirstCallback(urls: seq<Url>, issued: map<string, Flow>): (r: Option<Url>)
    ensures r.Some? ==> r.value in urls && r.value.isCallback && StateOf(r.value) in issued
    ensures r.None? ==> forall u | u in urls && u.isCallback :: StateOf(u) !in issued
  {
    if urls == [] then None
    else if urls[0].isCallback && StateOf(urls[0]) in issued then Some(urls[0])
    else FirstCallback(urls[1..], issued)
  }

  function Shown(urls: seq<Url>, current: Option<int>): Url {
    var k := if current.Some? then current.value else |urls| - 1;
    if 0 <= k < |urls| then urls[k] else BLANK
  }

  predicate IsCurrent(s: State, href: Url) {
    OnAuthorize(href) && StateOf(href) in s.issued && s.issued[StateOf(href)].state == s.flow.state
  }

  /** An error inside a poll is "not yet" unless the connection or the tab is gone. */
  function Caught(fatal: bool): Signal {
    if fatal then Broken else Again
  }

  /** Restart an expired flow, or send the tab back to the current one. */
  function Restarted(s: State, poll: Poll, expired: bool): (State, Signal) {
    var paused := s.(retryFlowAt := poll.paused + FLOW_RETRY_MS);
    var next := if expired then Started(poll.start) else Result.Ok(s.flow);
    if next.Err? then (paused, Caught(next.error))
    else
      var flow := next.value;
      var issued :=
        if expired then paused.(issued := s.issued[flow.state := flow], flow := flow, trace := s.trace + [Issued(flow)])
                    else paused;
      (issued.(trace := issued.trace + [Navigated(flow.url)]), if poll.sent.Ok? then Again else Caught(poll.sent.fatal))
  }

  /** The consent page of the current flow: read the account, then press the button. */
  function Consented(s: State, poll: Poll, href: Url, account: Account): (State, Signal) {
    match poll.email
    case NotRead(fatal) => (s, Caught(fatal))
    case NotText => (s.(phase := WaitingForLogin), Again)
    case Text(email) =>
      var read := s.(trace := s.trace + [Read(email)]);
      if account.normal(email) != account.expected then (read, WrongAccount)
      else
        var tried := read.(trace := read.trace + [Tried(href, poll.judged)]);
        match poll.click
        case NoReply(fatal) => (tried, Caught(fatal))
        case NoButton => (tried, Again)
        case Clicked =>
          (tried.(clickedFor := Some(s.flow.state), phase := Authorizing, trace := tried.trace + [Acknowledged]), Again)
  }

  function Looked(s: State, poll: Poll, href: Url, account: Account): (State, Signal) {
    var current := IsCurrent(s, href);
    var expired := poll.judged - s.flow.at > FLOW_TTL_MS;
    var open := s.clickedFor != Some(s.flow.state);
    if OnAuthorize(href) && open && (expired || !current) && poll.retried >= s.retryFlowAt then
      Restarted(s, poll, expired)
    else if OnAuthorize(href) && current && !expired && open then Consented(s, poll, href, account)
    else if OnClaude(href) && open then (s.(phase := WaitingForLogin), Again)
    else (s, Again)
  }

  function Polled(s: State, poll: Poll, account: Account): (State, Signal) {
    match poll.history
    case Unread(fatal) =>
      (s.(unreadable := s.unreadable + 1), if s.unreadable + 1 >= UNREADABLE_LIMIT then Broken else Caught(fatal))
    case Entries(urls, current) =>
      var seen := s.(unreadable := 0);
      var callback := FirstCallback(urls, s.issued);
      if callback.Some? then
        (seen.(flow := s.issued[StateOf(callback.value)]), Found(callback.value))
      else Looked(seen, poll, Shown(urls, current), account)
  }

  // ------------------------------------------------------------ what must never happen

  /** The flow asked for last. */
  function Latest(t: seq<Event>): Option<Flow> {
    if t == [] then None
    else if t[|t| - 1].Issued? then Some(t[|t| - 1].flow)
    else Latest(t[..|t| - 1])
  }

  predicate Clicks(t: seq<Event>) {
    Acknowledged in t
  }

  /** The account read last is another one. */
  predicate Stopped(t: seq<Event>, account: Account) {
    t != [] && t[|t| - 1].Read? && account.normal(t[|t| - 1].email) != account.expected
  }

  /** Whether event `e` may follow the events `t`. */
  predicate MayFollow(t: seq<Event>, e: Event, account: Account) {
    !Stopped(t, account) &&
    match e
    case Issued(flow) => !Clicks(t) && flow.state != "" && flow.url.secure && OnAuthorize(flow.url)
    case Navigated(url) => !Clicks(t) && Latest(t).Some? && url == Latest(t).value.url
    case Read(_) => !Clicks(t)
    case Tried(shown, judged) =>
      && !Clicks(t)
      && t != [] && t[|t| - 1].Read? && account.normal(t[|t| - 1].email) == account.expected
      && Latest(t).Some? && OnAuthorize(shown) && shown.state == Some(Latest(t).value.state)
      && judged - Latest(t).value.at <= FLOW_TTL_MS
    case Acknowledged => t != [] && t[|t| - 1].Tried?
    case HandedOver(callback, state) =>
      callback.isCallback && callback.state == Some(state) && exists k ::
        0 <= k < |t| && t[k].Issued? && t[k].flow.state == state
  }

  /** Every event may follow those before it. */
  predicate Safe(t: seq<Event>, account: Account) {
    t == [] || (Safe(t[..|t| - 1], account) && MayFollow(t[..|t| - 1], t[|t| - 1], account))
  }

  // ------------------------------------------------------------ what the loop keeps

  predicate FlowsFit(s: State) {
    && (forall k | k in s.issued :: k != "" && s.issued[k].state == k && Issued(s.issued[k]) in s.trace)
    && s.flow.state in s.issued && Latest(s.trace) == Some(s.flow)
  }

  /** The flow clicked for, if any, is the current one. */
  predicate Inv(s: State, account: Account) {
    && Safe(s.trace, account) && !Stopped(s.trace, account) && FlowsFit(s)
    && (s.clickedFor == None || s.clickedFor == Some(s.flow.state))
    && (s.clickedFor.Some? <==> Clicks(s.trace))
  }

  lemma SafeExtends(t: seq<Event>, e: Event, account: Account)
    requires Safe(t, account) && MayFollow(t, e, account)
    ensures Safe(t + [e], account)
    ensures Latest(t + [e]) == if e.Issued? then Some(e.flow) else Latest(t)
    ensures Clicks(t + [e]) <==> Clicks(t) || e.Acknowledged?
  {
    assert (t + [e])[..|t + [e]| - 1] == t;
  }

  lemma BegunKeepsInv(flow: Flow, account: Account)
    requires flow.state != "" && flow.url.secure && OnAuthorize(flow.url)
    ensures Inv(Begun(flow), account)
  {
    FirstIsSafe(flow, account);
    SafeExtends([Issued(flow)], Navigated(flow.url), account);
    assert Begun(flow).trace == [Issued(flow)] + [Navigated(flow.url)];
  }

  lemma FirstIsSafe(flow: Flow, account: Account)
    requires flow.state != "" && flow.url.secure && OnAuthorize(flow.url)
    ensures Safe([Issued(flow)], account) && Latest([Issued(flow)]) == Some(flow)
  {
    var none: seq<Event> := [];
    assert Safe(none, account) && !Stopped(none, account) && !Clicks(none);
    SafeExtends(none, Issued(flow), account);
    assert none + [Issued(flow)] == [Issued(flow)];
  }

  lemma ReissuedKeepsFlows(s: State, flow: Flow, t: seq<Event>)
    requires FlowsFit(s) && flow.state != "" && Latest(t) == Some(flow) && (forall e | e in s.trace :: e in t)
    requires Issued(flow) in t
    ensures FlowsFit(s.(issued := s.issued[flow.state := flow], flow := flow, trace := t))
  {
  }

  lemma RestartedKeepsInv(s: State, poll: Poll, expired: bool, account: Account)
    requires Inv(s, account) && s.clickedFor.None?
    ensures Inv(Restarted(s, poll, expired).0, account)
  {
    var next := if expired then Started(poll.start) else Result.Ok(s.flow);
    if next.Ok? {
      var flow := next.value;
      if expired {
        SafeExtends(s.trace, Issued(flow), account);
        SafeExtends(s.trace + [Issued(flow)], Navigated(flow.url), account);
        ReissuedKeepsFlows(s, flow, s.trace + [Issued(flow)] + [Navigated(flow.url)]);
      } else {
        SafeExtends(s.trace, Navigated(flow.url), account);
      }
    }
  }

  /** An event that is no new flow and no click changes nothing else. */
  lemma EventKeepsInv(s: State, e: Event, account: Account)
    requires Inv(s, account) && MayFollow(s.trace, e, account) && !e.Issued? && !e.Acknowledged?
    ensures Safe(s.trace + [e], account)
    ensures !Stopped(s.trace + [e], account) ==> Inv(s.(trace := s.trace + [e]), account)
  {
    SafeExtends(s.trace, e, account);
  }

  lemma ClickKeepsInv(s: State, account: Account)
    requires Inv(s, account) && s.clickedFor.None? && MayFollow(s.trace, Acknowledged, account)
    ensures Inv(s.(clickedFor := Some(s.flow.state), phase := Authorizing, trace := s.trace + [Acknowledged]), account)
  {
    SafeExtends(s.trace, Acknowledged, account);
  }

  function TriedState(s: State, poll: Poll, href: Url): State
    requires poll.email.Text?
  {
    s.(trace := s.trace + [Read(poll.email.email)] + [Tried(href, poll.judged)])
  }

  lemma TriedKeepsInv(s: State, poll: Poll, href: Url, account: Account)
    requires Inv(s, account) && s.clickedFor.None? && IsCurrent(s, href) && poll.judged - s.flow.at <= FLOW_TTL_MS
    requires poll.email.Text? && account.normal(poll.email.email) == account.expected
    ensures Inv(TriedState(s, poll, href), account) && MayFollow(TriedState(s, poll, href).trace, Acknowledged, account)
  {
    EventKeepsInv(s, Read(poll.email.email), account);
    SafeExtends(s.trace, Read(poll.email.email), account);
    EventKeepsInv(s.(trace := s.trace + [Read(poll.email.email)]), Tried(href, poll.judged), account);
  }

  lemma ReadOther(s: State, poll: Poll, href: Url, account: Account)
    requires Inv(s, account) && s.clickedFor.None?
    requires poll.email.Text? && account.normal(poll.email.email) != account.expected
    ensures Consented(s, poll, href, account).1 == WrongAccount
    ensures Safe(Consented(s, poll, href, account).0.trace, account)
    ensures Stopped(Consented(s, poll, href, account).0.trace, account)
  {
    SafeExtends(s.trace, Read(poll.email.email), account);
  }

  lemma ReadExpected(s: State, poll: Poll, href: Url, account: Account)
    requires Inv(s, account) && s.clickedFor.None? && IsCurrent(s, href) && poll.judged - s.flow.at <= FLOW_TTL_MS
    requires poll.email.Text? && account.normal(poll.email.email) == account.expected
    ensures Consented(s, poll, href, account).1 != WrongAccount && Inv(Consented(s, poll, href, account).0, account)
  {
    var tried := TriedState(s, poll, href);
    TriedKeepsInv(s, poll, href, account);
    ClickKeepsInv(tried, account);
    assert Consented(s, poll, href, account).0 ==
      if poll.click.Clicked? then
        tried.(clickedFor := Some(tried.flow.state), phase := Authorizing, trace := tried.trace + [Acknowledged])
      else tried;
  }

  lemma ConsentedKeeps(s: State, poll: Poll, href: Url, account: Account)
    requires Inv(s, account) && s.clickedFor.None? && IsCurrent(s, href) && poll.judged - s.flow.at <= FLOW_TTL_MS
    ensures Safe(Consented(s, poll, href, account).0.trace, account)
    ensures Consented(s, poll, href, account).1 != WrongAccount ==> Inv(Consented(s, poll, href, account).0, account)
    ensures Consented(s, poll, href, account).1 == WrongAccount ==>
      Stopped(Consented(s, poll, href, account).0.trace, account)
  {
    if !poll.email.Text? {
      assert Consented(s, poll, href, account).0.(phase := s.phase) == s;
    } else if account.normal(poll.email.email) == account.expected {
      ReadExpected(s, poll, href, account);
    } else {
      ReadOther(s, poll, href, account);
    }
  }

  lemma LookedKeeps(s: State, poll: Poll, href: Url, account: Account)
    requires Inv(s, account)
    ensures Safe(Looked(s, poll, href, account).0.trace, account)
    ensures Looked(s, poll, href, account).1 != WrongAccount ==> Inv(Looked(s, poll, href, account).0, account)
    ensures Looked(s, poll, href, account).1 == WrongAccount ==>
      Stopped(Looked(s, poll, href, account).0.trace, account)
  {
    if s.clickedFor.None? {
      var expired := poll.judged - s.flow.at > FLOW_TTL_MS;
      RestartedKeepsInv(s, poll, expired, account);
      if IsCurrent(s, href) && !expired {
        ConsentedKeeps(s, poll, href, account);
      }
    }
  }

  /** The callback found is posted with the state it carries, and that is a flow of this job. */
  lemma FoundIsOwn(s: State, urls: seq<Url>, account: Account)
    requires Inv(s, account) && FirstCallback(urls, s.issued).Some?
    ensures var callback := FirstCallback(urls, s.issued).value;
      MayFollow(s.trace, HandedOver(callback, s.issued[StateOf(callback)].state), account)
  {
    var callback := FirstCallback(urls, s.issued).value;
    assert Issued(s.issued[StateOf(callback)]) in s.trace;
  }

  /** What a poll may leave: a safe trace, and the invariant if the loop can go on. */
  predicate Kept(s: State, signal: Signal, account: Account) {
    && Safe(s.trace, account)
    && (signal == Again || signal == Broken ==> Inv(s, account))
    && (signal == WrongAccount ==> Stopped(s.trace, account))
    && (signal.Found? ==> MayFollow(s.trace, HandedOver(signal.callback, s.flow.state), account))
  }

  /** Each poll keeps the trace safe. A poll that found a callback or another account is the last. */
  lemma PolledKeeps(s: State, poll: Poll, account: Account)
    requires Inv(s, account)
    ensures Kept(Polled(s, poll, account).0, Polled(s, poll, account).1, account)
  {
    match poll.history
    case Unread(_) => CountKeepsInv(s, s.unreadable + 1, account);
    case Entries(urls, current) =>
      if FirstCallback(urls, s.issued).Some? {
        FoundIsOwn(s, urls, account);
      } else {
        CountKeepsInv(s, 0, account);
        LookedIsKept(s.(unreadable := 0), poll, Shown(urls, current), account);
      }
  }

  lemma LookedIsKept(s: State, poll: Poll, href: Url, account: Account)
    requires Inv(s, account)
    ensures Kept(Looked(s, poll, href, account).0, Looked(s, poll, href, account).1, account)
  {
    LookedKeeps(s, poll, href, account);
  }

  lemma CountKeepsInv(s: State, unreadable: nat, account: Account)
    requires Inv(s, account)
    ensures Inv(s.(unreadable := unreadable), account)
  {
  }

  // ------------------------------------------------------------ what a poll must do

  /** What the polls so far leave: the events, when the tab may be sent somewhere again, how many reads of its history
      have failed in a row, and what the job shows. */
  datatype Record = Record(trace: seq<Event>, pause: int, misses: nat, phase: Phase)

  function RecordOf(s: State): Record {
    Record(s.trace, s.retryFlowAt, s.unreadable, s.phase)
  }

  predicate AskedFor(t: seq<Event>, state: string) {
    exists k | 0 <= k < |t| :: t[k].Issued? && t[k].flow.state == state
  }

  /** A callback of a flow that this job asked for. */
  predicate Returns(t: seq<Event>, url: Url) {
    url.isCallback && url.state.Some? && AskedFor(t, url.state.value)
  }

  predicate ReturnsFirst(t: seq<Event>, urls: seq<Url>, k: int) {
    && 0 <= k < |urls| && Returns(t, urls[k])
    && forall j | 0 <= j < k :: !Returns(t, urls[j])
  }

  predicate ReturnsNone(t: seq<Event>, urls: seq<Url>) {
    forall k | 0 <= k < |urls| :: !Returns(t, urls[k])
  }

  /** An authorize page is on screen and no click was acknowledged. */
  predicate Asks(t: seq<Event>, page: Url) {
    page.host == "claude.ai" && "/oauth/authorize" <= page.path && Acknowledged !in t
  }

  /** The page asks for the consent that the flow asked for last is waiting for. */
  predicate AsksConsent(t: seq<Event>, poll: Poll, page: Url, flow: Flow) {
    Asks(t, page) && page.state == Some(flow.state) && poll.judged - flow.at <= 270_000
  }

  predicate AsksTooLate(t: seq<Event>, poll: Poll, page: Url, flow: Flow, pause: int) {
    Asks(t, page) && poll.judged - flow.at > 270_000 && poll.retried >= pause
  }

  predicate AsksForOther(t: seq<Event>, poll: Poll, page: Url, flow: Flow, pause: int) {
    Asks(t, page) && poll.judged - flow.at <= 270_000 && page.state != Some(flow.state) && poll.retried >= pause
  }

  predicate GoesOnUnless(fatal: bool, signal: Signal) {
    if fatal then signal == Broken else signal == Again
  }

  /** The account is read; another one ends the job, the expected one is authorized. */
  predicate Consenting(t: seq<Event>, poll: Poll, page: Url, account: Account, t': seq<Event>, signal: Signal) {
    && (poll.email.NotRead? ==> t' == t && GoesOnUnless(poll.email.fatal, signal))
    && (poll.email.NotText? ==> t' == t && signal == Again)
    && (poll.email.Text? && account.normal(poll.email.email) != account.expected ==>
          t' == t + [Read(poll.email.email)] && signal == WrongAccount)
    && (poll.email.Text? && account.normal(poll.email.email) == account.expected ==>
          var tried := t + [Read(poll.email.email), Tried(page, poll.judged)];
          && (poll.click.Clicked? ==> t' == tried + [Acknowledged] && signal == Again)
          && (poll.click.NoButton? ==> t' == tried && signal == Again)
          && (poll.click.NoReply? ==> t' == tried && GoesOnUnless(poll.click.fatal, signal)))
  }

  /** The answer holds a flow on claude.ai's own authorize page. */
  predicate Usable(start: Start, flow: Flow) {
    && start.Answered? && start.status == 200
    && start.url == Some(flow.url) && start.state == flow.state && start.at == flow.at
    && flow.state != "" && flow.url.secure
    && flow.url.host == "claude.ai" && "/oauth/authorize" <= flow.url.path
  }

  ghost predicate Unusable(start: Start) {
    forall flow :: !Usable(start, flow)
  }

  /** The tab is sent to the flow's page. */
  predicate Sending(t: seq<Event>, poll: Poll, flow: Flow, t': seq<Event>, signal: Signal) {
    && t' == t + [Navigated(flow.url)]
    && (if poll.sent.Ok? then signal == Again else GoesOnUnless(poll.sent.fatal, signal))
  }

  /** A new flow is asked for, and the tab is sent there if there is one. */
  ghost predicate AskingAgain(t: seq<Event>, poll: Poll, t': seq<Event>, signal: Signal) {
    && (forall flow | Usable(poll.start, flow) :: Sending(t + [Issued(flow)], poll, flow, t', signal))
    && (Unusable(poll.start) ==> t' == t && GoesOnUnless(poll.start == NoAnswer(true), signal))
  }

  /** What a poll makes of the page on screen. */
  ghost predicate DoesOnPage(r: Record, poll: Poll, page: Url, account: Account, flow: Flow, r': Record,
                             signal: Signal)
  {
    var consent := AsksConsent(r.trace, poll, page, flow);
    var late := AsksTooLate(r.trace, poll, page, flow, r.pause);
    var other := AsksForOther(r.trace, poll, page, flow, r.pause);
    && (consent ==> Consenting(r.trace, poll, page, account, r'.trace, signal))
    && (late ==> AskingAgain(r.trace, poll, r'.trace, signal))
    && (other ==> Sending(r.trace, poll, flow, r'.trace, signal))
    && (!consent && !late && !other ==> r'.trace == r.trace && signal == Again)
    && r'.misses == 0 && r'.pause == (if late || other then poll.paused + 30_000 else r.pause)
    && (late || other ==> r'.phase == r.phase)
    && (consent ==> r'.phase == (if poll.email.NotText? then WaitingForLogin
                                 else if Acknowledged in r'.trace then Authorizing else r.phase))
    && (!consent && !late && !other ==>
          r'.phase == if page.host == "claude.ai" && Acknowledged !in r.trace then WaitingForLogin else r.phase)
  }

  /** What a poll does, told from its answers and from what earlier polls left. */
  ghost predicate Does(r: Record, poll: Poll, account: Account, r': Record, signal: Signal) {
    match poll.history
    case Unread(fatal) =>
      r' == r.(misses := r.misses + 1) && GoesOnUnless(fatal || r.misses >= 4, signal)
    case Entries(urls, current) =>
      var k := if current.Some? then current.value else |urls| - 1;
      && Latest(r.trace).Some?
      && (forall j | ReturnsFirst(r.trace, urls, j) :: r' == r.(misses := 0) && signal == Found(urls[j]))
      && (ReturnsNone(r.trace, urls) && !(0 <= k < |urls|) ==> r' == r.(misses := 0) && signal == Again)
      && (ReturnsNone(r.trace, urls) && 0 <= k < |urls| ==>
            DoesOnPage(r, poll, urls[k], account, Latest(r.trace).value, r', signal))
  }

  /** Event `k` asks for the flow, and none after it asks for another. */
  predicate AskedLast(t: seq<Event>, flow: Flow, k: int) {
    && 0 <= k < |t| && t[k] == Issued(flow)
    && forall j | k < j < |t| :: !t[j].Issued?
  }

  lemma {:induction false} LatestExactly(t: seq<Event>, flow: Flow)
    ensures Latest(t) == Some(flow) <==> exists k :: AskedLast(t, flow, k)
  {
    if t != [] && !t[|t| - 1].Issued? {
      LatestExactly(t[..|t| - 1], flow);
      var u := t[..|t| - 1];
      if k :| AskedLast(t, flow, k) {
        LatestBefore(t, flow, k);
        assert AskedLast(u, flow, k);
      }
      if k :| AskedLast(u, flow, k) {
        LatestBefore(t, flow, k);
        assert AskedLast(t, flow, k);
      }
    } else if t != [] {
      LatestIsLast(t, flow);
    }
  }

  lemma LatestIsLast(t: seq<Event>, flow: Flow)
    requires t != [] && t[|t| - 1].Issued?
    ensures t[|t| - 1].flow == flow <==> exists k :: AskedLast(t, flow, k)
  {
    if t[|t| - 1].flow == flow {
      assert AskedLast(t, flow, |t| - 1);
    } else {
      forall k ensures !AskedLast(t, flow, k) {
        assert 0 <= k < |t| - 1 || !(0 <= k < |t|) || t[k] != Issued(flow);
      }
    }
  }

  lemma LatestBefore(t: seq<Event>, flow: Flow, k: int)
    requires t != [] && !t[|t| - 1].Issued?
    ensures AskedLast(t, flow, k) <==> AskedLast(t[..|t| - 1], flow, k)
  {
    var u := t[..|t| - 1];
    assert forall j | 0 <= j < |u| :: u[j] == t[j];
    if AskedLast(u, flow, k) {
      assert forall j | k < j < |t| :: j < |u| ==> u[j] == t[j];
    }
  }

  /** Every flow asked for is still known. */
  predicate Remembers(s: State) {
    forall k | 0 <= k < |s.trace| && s.trace[k].Issued? :: s.trace[k].flow.state in s.issued
  }

  lemma OwnExactly(s: State, url: Url)
    requires FlowsFit(s) && Remembers(s)
    ensures Returns(s.trace, url) <==> url.isCallback && StateOf(url) in s.issued
  {
    if url.isCallback && StateOf(url) in s.issued {
      assert Issued(s.issued[StateOf(url)]) in s.trace;
      assert AskedFor(s.trace, StateOf(url));
    }
  }

  lemma {:induction false} FirstExactly(s: State, urls: seq<Url>)
    requires FlowsFit(s) && Remembers(s)
    ensures FirstCallback(urls, s.issued).None? <==> ReturnsNone(s.trace, urls)
    ensures forall k | ReturnsFirst(s.trace, urls, k) :: FirstCallback(urls, s.issued) == Some(urls[k])
  {
    if urls != [] {
      OwnExactly(s, urls[0]);
      FirstExactly(s, urls[1..]);
      forall k | ReturnsFirst(s.trace, urls, k) ensures FirstCallback(urls, s.issued) == Some(urls[k]) {
        assert k > 0 ==> ReturnsFirst(s.trace, urls[1..], k - 1);
      }
      assert forall k | 0 < k < |urls| :: urls[k] == urls[1..][k - 1];
    }
  }

  lemma CurrentExactly(s: State, page: Url)
    requires FlowsFit(s)
    ensures IsCurrent(s, page) <==>
      page.host == "claude.ai" && "/oauth/authorize" <= page.path && page.state == Some(s.flow.state)
  {
  }

  lemma StartedExactly(start: Start, flow: Flow)
    ensures Started(start) == Result.Ok(flow) <==> Usable(start, flow)
  {
  }

  lemma StartedError(start: Start)
    ensures Started(start).Err? <==> Unusable(start)
    ensures Started(start).Err? ==> Started(start).error == (start == NoAnswer(true))
  {
    if Started(start).Ok? {
      StartedExactly(start, Started(start).value);
    } else if flow :| Usable(start, flow) {
      StartedExactly(start, flow);
    }
  }

  lemma StartedMeans(start: Start)
    ensures Started(start).Err? <==> Unusable(start)
    ensures forall flow :: Usable(start, flow) <==> Started(start) == Result.Ok(flow)
  {
    StartedError(start);
    forall flow ensures Usable(start, flow) <==> Started(start) == Result.Ok(flow) {
      StartedExactly(start, flow);
    }
  }

  lemma AskedAgain(s: State, poll: Poll)
    ensures AskingAgain(s.trace, poll, Restarted(s, poll, true).0.trace, Restarted(s, poll, true).1)
  {
    StartedError(poll.start);
    forall flow | Usable(poll.start, flow)
      ensures Sending(s.trace + [Issued(flow)], poll, flow, Restarted(s, poll, true).0.trace,
                      Restarted(s, poll, true).1)
    {
      StartedExactly(poll.start, flow);
    }
  }

  lemma ConsentIsAsked(s: State, poll: Poll, page: Url, account: Account)
    requires Acknowledged !in s.trace
    ensures
      var (s', signal) := Consented(s, poll, page, account);
      && Consenting(s.trace, poll, page, account, s'.trace, signal)
      && s'.unreadable == s.unreadable && s'.retryFlowAt == s.retryFlowAt
      && s'.phase == (if poll.email.NotText? then WaitingForLogin
                      else if Acknowledged in s'.trace then Authorizing else s.phase)
  {
    if poll.email.Text? {
      var e, tried := Read(poll.email.email), Tried(page, poll.judged);
      assert s.trace + [e] + [tried] == s.trace + [e, tried];
    }
  }

  lemma LookedDoes(s: State, poll: Poll, page: Url, account: Account)
    requires Inv(s, account) && s.unreadable == 0
    ensures DoesOnPage(RecordOf(s), poll, page, account, s.flow, RecordOf(Looked(s, poll, page, account).0),
                       Looked(s, poll, page, account).1)
  {
    CurrentExactly(s, page);
    AskedAgain(s, poll);
    if s.clickedFor.None? {
      ConsentIsAsked(s, poll, page, account);
    }
  }

  /** Every poll does what its answers ask for. */
  lemma PolledDoes(s: State, poll: Poll, account: Account)
    requires Inv(s, account) && Remembers(s)
    ensures Does(RecordOf(s), poll, account, RecordOf(Polled(s, poll, account).0), Polled(s, poll, account).1)
  {
    if poll.history.Entries? {
      FirstExactly(s, poll.history.urls);
      CountKeepsInv(s, 0, account);
      LookedDoes(s.(unreadable := 0), poll, Shown(poll.history.urls, poll.history.current), account);
    }
  }

  lemma RestartedRemembers(s: State, poll: Poll, expired: bool)
    requires Remembers(s)
    ensures Remembers(Restarted(s, poll, expired).0)
  {
  }

  lemma ConsentedRemembers(s: State, poll: Poll, href: Url, account: Account)
    requires Remembers(s)
    ensures Remembers(Consented(s, poll, href, account).0)
  {
  }

  lemma PolledRemembers(s: State, poll: Poll, account: Account)
    requires Remembers(s)
    ensures Remembers(Polled(s, poll, account).0)
  {
    var seen := s.(unreadable := 0);
    RestartedRemembers(seen, poll, poll.judged - s.flow.at > FLOW_TTL_MS);
    if poll.history.Entries? {
      ConsentedRemembers(seen, poll, Shown(poll.history.urls, poll.history.current), account);
    }
  }

  // ------------------------------------------------------------ runs of the loop

  function After(s: State, polls: nat -> Poll, account: Account, n: nat): State {
    if n == 0 then s else Polled(After(s, polls, account, n - 1), polls(n - 1), account).0
  }

  function SignalAt(s: State, polls: nat -> Poll, account: Account, n: nat): Signal {
    Polled(After(s, polls, account, n), polls(n), account).1
  }

  predicate GoesOn(s: State, polls: nat -> Poll, account: Account, start: int, k: nat) {
    polls(k).guard < start + WINDOW_MS && SignalAt(s, polls, account, k) == Again
  }

  /** The loop reaches poll `n`. */
  ghost predicate Reaches(s: State, polls: nat -> Poll, account: Account, start: int, n: nat) {
    forall k: nat | k < n :: GoesOn(s, polls, account, start, k)
  }

  /** The clock never goes back, and a poll takes a second or more with its pause. */
  predicate ClockFits(poll: Poll) {
    && poll.guard <= poll.judged <= poll.retried <= poll.paused
    && (poll.start.Answered? ==> poll.paused <= poll.start.at)
  }

  function Last(poll: Poll): int {
    if poll.start.Answered? then poll.start.at else poll.paused
  }

  predicate PollFits(polls: nat -> Poll, k: nat) {
    ClockFits(polls(k)) && Last(polls(k)) + POLL_MS <= polls(k + 1).guard
  }

  ghost predicate Clocks(polls: nat -> Poll, start: int) {
    && start <= polls(0).guard
    && (forall k: nat :: PollFits(polls, k))
  }

  lemma {:induction false} RunKeepsInv(s: State, polls: nat -> Poll, account: Account, start: int, n: nat)
    requires Inv(s, account) && Reaches(s, polls, account, start, n)
    ensures Inv(After(s, polls, account, n), account)
  {
    if n > 0 {
      RunKeepsInv(s, polls, account, start, n - 1);
      assert GoesOn(s, polls, account, start, n - 1);
      PolledKeeps(After(s, polls, account, n - 1), polls(n - 1), account);
    }
  }

  datatype End = Handed(callback: Url, state: string) | NoSignIn | OtherAccount | ConnectionLost

  /** How the loop ends at poll `n`, and what it has done by then. */
  ghost predicate Ends(s: State, polls: nat -> Poll, account: Account, start: int, n: nat, end: End,
                       trace: seq<Event>)
  {
    && Reaches(s, polls, account, start, n)
    && (polls(n).guard >= start + WINDOW_MS <==> end == NoSignIn)
    && (end == NoSignIn ==> trace == After(s, polls, account, n).trace)
    && (end != NoSignIn ==>
          match SignalAt(s, polls, account, n)
          case Again => false
          case Broken => end == ConnectionLost && trace == After(s, polls, account, n + 1).trace
          case WrongAccount => end == OtherAccount && trace == After(s, polls, account, n + 1).trace
          case Found(callback) =>
            var last := After(s, polls, account, n + 1);
            end == Handed(callback, last.flow.state) && trace == last.trace + [HandedOver(callback, last.flow.state)])
  }

  // ------------------------------------------------------------ what every run guarantees

  lemma {:induction false} SafeAt(t: seq<Event>, account: Account, k: nat)
    requires Safe(t, account) && k < |t|
    ensures MayFollow(t[..k], t[k], account)
    decreases |t|
  {
    if k < |t| - 1 {
      SafeAt(t[..|t| - 1], account, k);
      assert t[..|t| - 1][..k] == t[..k];
    }
  }

  /** Whatever the browser and the proxy answer, the loop ends with a safe trace. */
  lemma EndIsSafe(s: State, polls: nat -> Poll, account: Account, start: int, n: nat, end: End, trace: seq<Event>)
    requires Inv(s, account) && Ends(s, polls, account, start, n, end, trace)
    ensures Safe(trace, account)
  {
    RunKeepsInv(s, polls, account, start, n);
    if end != NoSignIn {
      PolledKeeps(After(s, polls, account, n), polls(n), account);
      if end.Handed? {
        SafeExtends(After(s, polls, account, n + 1).trace, HandedOver(end.callback, end.state), account);
      }
    }
  }

  /** A click is tried only when the page shown is the authorize page of the flow asked for last, that flow is
      unexpired, the account was read right before and is the expected one, and nothing was clicked before. */
  lemma {:induction false} ClickIsChecked(t: seq<Event>, account: Account, k: nat)
    requires Safe(t, account) && k < |t| && t[k].Tried?
    ensures k > 0 && t[k - 1].Read? && account.normal(t[k - 1].email) == account.expected
    ensures Latest(t[..k]).Some? && OnAuthorize(t[k].shown) && t[k].shown.state == Some(Latest(t[..k]).value.state)
    ensures t[k].judged - Latest(t[..k]).value.at <= FLOW_TTL_MS
    ensures Acknowledged !in t[..k]
  {
    SafeAt(t, account, k);
  }

  /** After an acknowledged click no flow is asked for, no page is opened and nothing is clicked: all that may
      follow is the hand-over. So a job has at most one acknowledged click. */
  lemma {:induction false} NothingAfterClick(t: seq<Event>, account: Account, i: nat, j: nat)
    requires Safe(t, account) && i < j < |t| && t[i] == Acknowledged
    ensures t[j].HandedOver?
  {
    SafeAt(t, account, j);
    SafeAt(t, account, j - 1);
    assert t[..j][i] == Acknowledged && t[..j][j - 1] == t[j - 1];
    assert i < j - 1 ==> t[..j - 1][i] == Acknowledged;
  }

  lemma {:induction false} NotLastIsExpected(t: seq<Event>, account: Account, k: nat)
    requires Safe(t, account) && k + 1 < |t|
    ensures t[k].Read? ==> account.normal(t[k].email) == account.expected
  {
    SafeAt(t, account, k + 1);
    assert t[..k + 1][k] == t[k];
  }

  /** Reading another account's address is the last thing a job does. */
  lemma {:induction false} OtherAccountEndsIt(t: seq<Event>, account: Account, k: nat)
    requires Safe(t, account) && k < |t| && t[k].Read? && account.normal(t[k].email) != account.expected
    ensures k == |t| - 1
  {
    if k + 1 < |t| {
      NotLastIsExpected(t, account, k);
    }
  }

  /** A callback is handed over with the state it carries, and this job asked for that flow before. */
  lemma {:induction false} CallbackIsOwn(t: seq<Event>, account: Account, k: nat)
    requires Safe(t, account) && k < |t| && t[k].HandedOver?
    ensures t[k].callback.isCallback && t[k].callback.state == Some(t[k].state)
    ensures exists i :: 0 <= i < k && t[i].Issued? && t[i].flow.state == t[k].state
  {
    SafeAt(t, account, k);
    var i :| 0 <= i < k && t[..k][i].Issued? && t[..k][i].flow.state == t[k].state;
    assert t[i] == t[..k][i];
  }

  // ------------------------------------------------------------ how many flows a job can ask for

  function Flows(t: seq<Event>): nat {
    if t == [] then 0 else Flows(t[..|t| - 1]) + if t[|t| - 1].Issued? then 1 else 0
  }

  lemma FlowsOf(t: seq<Event>, e: Event)
    ensures Flows(t + [e]) == Flows(t) + if e.Issued? then 1 else 0
  {
    assert (t + [e])[..|t + [e]| - 1] == t;
  }

  /** What a poll may do to the flows asked for. */
  predicate FlowsMove(s: State, s': State, poll: Poll) {
    || (Flows(s'.trace) == Flows(s.trace) && s'.flow == s.flow)
    || (Flows(s'.trace) == Flows(s.trace) + 1 && poll.judged - s.flow.at > FLOW_TTL_MS
          && poll.judged <= s'.flow.at <= Last(poll))
  }

  lemma RestartedFlows(s: State, poll: Poll, expired: bool)
    requires ClockFits(poll) && (expired ==> poll.judged - s.flow.at > FLOW_TTL_MS)
    ensures FlowsMove(s, Restarted(s, poll, expired).0, poll)
  {
    var next := Started(poll.start);
    if expired && next.Ok? {
      FlowsOf(s.trace, Issued(next.value));
      FlowsOf(s.trace + [Issued(next.value)], Navigated(next.value.url));
    } else if !expired {
      FlowsOf(s.trace, Navigated(s.flow.url));
    }
  }

  lemma ConsentedFlows(s: State, poll: Poll, href: Url, account: Account)
    ensures FlowsMove(s, Consented(s, poll, href, account).0, poll)
  {
    if poll.email.Text? {
      var read := s.trace + [Read(poll.email.email)];
      FlowsOf(s.trace, Read(poll.email.email));
      FlowsOf(read, Tried(href, poll.judged));
      FlowsOf(read + [Tried(href, poll.judged)], Acknowledged);
    }
  }

  /** A poll asks for at most one flow, and only when the current one has expired. */
  lemma PolledFlows(s: State, poll: Poll, account: Account)
    requires ClockFits(poll)
    ensures Polled(s, poll, account).1.Found? ==> Flows(Polled(s, poll, account).0.trace) == Flows(s.trace)
    ensures !Polled(s, poll, account).1.Found? ==> FlowsMove(s, Polled(s, poll, account).0, poll)
  {
    if poll.history.Entries? {
      LookedFlows(s.(unreadable := 0), poll, Shown(poll.history.urls, poll.history.current), account);
    }
  }

  lemma LookedFlows(s: State, poll: Poll, href: Url, account: Account)
    requires ClockFits(poll)
    ensures FlowsMove(s, Looked(s, poll, href, account).0, poll) && !Looked(s, poll, href, account).1.Found?
  {
    var expired := poll.judged - s.flow.at > FLOW_TTL_MS;
    if IsCurrent(s, href) && !expired {
      ConsentedFlows(s, poll, href, account);
    } else {
      RestartedFlows(s, poll, expired);
    }
  }

  /** Restarts are at least a flow's lifetime apart, so at most five fit into the window. */
  predicate Spaced(s: State, start: int, now: int) {
    && 1 <= Flows(s.trace) <= 6
    && (Flows(s.trace) >= 2 ==> start + (FLOW_TTL_MS + 1) * (Flows(s.trace) - 2) <= s.flow.at <= now)
  }

  lemma PolledSpaced(s: State, poll: Poll, account: Account, start: int, now: int)
    requires ClockFits(poll) && Spaced(s, start, now) && start <= poll.guard && now <= poll.guard < start + WINDOW_MS
    ensures Flows(Polled(s, poll, account).0.trace) <= 6
    ensures !Polled(s, poll, account).1.Found? ==> Spaced(Polled(s, poll, account).0, start, Last(poll))
  {
    PolledFlows(s, poll, account);
  }

  lemma {:induction false} RunIsSpaced(flow: Flow, polls: nat -> Poll, account: Account, start: int, n: nat)
    requires Clocks(polls, start) && Reaches(Begun(flow), polls, account, start, n)
    ensures Spaced(After(Begun(flow), polls, account, n), start, polls(n).guard) && start <= polls(n).guard
  {
    if n == 0 {
      FlowsOf([], Issued(flow));
      FlowsOf([Issued(flow)], Navigated(flow.url));
      assert [] + [Issued(flow)] == [Issued(flow)];
      assert Begun(flow).trace == [Issued(flow)] + [Navigated(flow.url)];
    } else {
      RunIsSpaced(flow, polls, account, start, n - 1);
      assert GoesOn(Begun(flow), polls, account, start, n - 1) && PollFits(polls, n - 1);
      PolledSpaced(After(Begun(flow), polls, account, n - 1), polls(n - 1), account, start, polls(n - 1).guard);
    }
  }

  /** Whatever happens, a job asks the proxy for at most six flows. */
  lemma AtMostSixFlows(flow: Flow, polls: nat -> Poll, account: Account, start: int, n: nat, end: End,
                       trace: seq<Event>)
    requires Clocks(polls, start) && Ends(Begun(flow), polls, account, start, n, end, trace)
    ensures Flows(trace) <= 6
  {
    RunIsSpaced(flow, polls, account, start, n);
    assert PollFits(polls, n);
    if end != NoSignIn {
      PolledSpaced(After(Begun(flow), polls, account, n), polls(n), account, start, polls(n).guard);
      if end.Handed? {
        FlowsOf(After(Begun(flow), polls, account, n + 1).trace, HandedOver(end.callback, end.state));
      }
    }
  }

  // ------------------------------------------------------------ what a run must do

  /** Poll `k` leaves the record after it, and the loop goes on. */
  ghost predicate Follows(records: seq<Record>, polls: nat -> Poll, account: Account, start: int, k: nat)
    requires k + 1 < |records|
  {
    polls(k).guard < start + 900_000 && Does(records[k], polls(k), account, records[k + 1], Again)
  }

  /** What the job has left before each poll, from its first flow on. */
  ghost predicate Story(first: Flow, polls: nat -> Poll, account: Account, start: int, records: seq<Record>) {
    && records != []
    && records[0] == Record([Issued(first), Navigated(first.url)], 0, 0, Checking)
    && forall k: nat | k + 1 < |records| :: Follows(records, polls, account, start, k)
  }

  /** How the poll after record `r` ends the loop. */
  ghost predicate Closes(r: Record, poll: Poll, account: Account, start: int, last: Record, end: End,
                         trace: seq<Event>)
  {
    if poll.guard >= start + 900_000 then end == NoSignIn && trace == r.trace && last == r
    else
      || (end == ConnectionLost && Does(r, poll, account, last, Broken) && trace == last.trace)
      || (end == OtherAccount && Does(r, poll, account, last, WrongAccount) && trace == last.trace)
      || (&& end.Handed? && Does(r, poll, account, last, Found(end.callback))
          && end.callback.state == Some(end.state) && trace == last.trace + [HandedOver(end.callback, end.state)])
  }

  ghost predicate Tells(first: Flow, polls: nat -> Poll, account: Account, start: int, n: nat, records: seq<Record>,
                        last: Record, end: End, trace: seq<Event>)
  {
    && |records| == n + 1 && Story(first, polls, account, start, records)
    && Closes(records[n], polls(n), account, start, last, end, trace)
  }

  /** The job has done what its polls asked for, one after the other, and ended as its last poll `n` says. */
  ghost predicate Told(first: Flow, polls: nat -> Poll, account: Account, start: int, n: nat, end: End,
                       trace: seq<Event>)
  {
    exists records, last :: Tells(first, polls, account, start, n, records, last, end, trace)
  }

  lemma BegunRemembers(flow: Flow)
    ensures Remembers(Begun(flow))
  {
  }

  lemma {:induction false} RunRemembers(s: State, polls: nat -> Poll, account: Account, n: nat)
    requires Remembers(s)
    ensures Remembers(After(s, polls, account, n))
  {
    if n > 0 {
      RunRemembers(s, polls, account, n - 1);
      PolledRemembers(After(s, polls, account, n - 1), polls(n - 1), account);
    }
  }

  lemma RunDoes(s: State, polls: nat -> Poll, account: Account, start: int, n: nat)
    requires Inv(s, account) && Remembers(s) && Reaches(s, polls, account, start, n)
    ensures Does(RecordOf(After(s, polls, account, n)), polls(n), account, RecordOf(After(s, polls, account, n + 1)),
                 SignalAt(s, polls, account, n))
  {
    RunKeepsInv(s, polls, account, start, n);
    RunRemembers(s, polls, account, n);
    PolledDoes(After(s, polls, account, n), polls(n), account);
  }

  function RecordsOf(s: State, polls: nat -> Poll, account: Account, n: nat): (r: seq<Record>)
    ensures |r| == n + 1
    ensures forall k: nat | k <= n :: r[k] == RecordOf(After(s, polls, account, k))
  {
    seq(n + 1, (k: nat) => RecordOf(After(s, polls, account, k)))
  }

  lemma RunFollows(s: State, polls: nat -> Poll, account: Account, start: int, n: nat, records: seq<Record>, k: nat)
    requires Inv(s, account) && Remembers(s) && Reaches(s, polls, account, start, n)
    requires k < n && records == RecordsOf(s, polls, account, n)
    ensures Follows(records, polls, account, start, k)
  {
    assert GoesOn(s, polls, account, start, k);
    RunDoes(s, polls, account, start, k);
  }

  /** What is handed over is the state that the callback carries. */
  lemma FoundState(s: State, poll: Poll, account: Account)
    requires FlowsFit(s)
    ensures
      var (s', signal) := Polled(s, poll, account);
      signal.Found? ==> signal.callback.state == Some(s'.flow.state)
  {
  }

  lemma RunStory(first: Flow, polls: nat -> Poll, account: Account, start: int, n: nat)
    requires Inv(Begun(first), account) && Reaches(Begun(first), polls, account, start, n)
    ensures Story(first, polls, account, start, RecordsOf(Begun(first), polls, account, n))
  {
    var records := RecordsOf(Begun(first), polls, account, n);
    BegunRemembers(first);
    forall k: nat | k + 1 < |records| ensures Follows(records, polls, account, start, k) {
      RunFollows(Begun(first), polls, account, start, n, records, k);
    }
  }

  lemma RunCloses(s: State, polls: nat -> Poll, account: Account, start: int, n: nat, end: End, trace: seq<Event>)
    requires Inv(s, account) && Remembers(s) && Ends(s, polls, account, start, n, end, trace)
    ensures
      var r := RecordOf(After(s, polls, account, n));
      var last := if end == NoSignIn then r else RecordOf(After(s, polls, account, n + 1));
      Closes(r, polls(n), account, start, last, end, trace)
  {
    if end != NoSignIn {
      RunDoes(s, polls, account, start, n);
      RunKeepsInv(s, polls, account, start, n);
      FoundState(After(s, polls, account, n), polls(n), account);
      AfterNext(s, polls, account, n);
    }
  }

  /** Every run does what its polls ask for. */
  lemma RunIsTold(first: Flow, polls: nat -> Poll, account: Account, start: int, n: nat, end: End, trace: seq<Event>)
    requires Inv(Begun(first), account) && Ends(Begun(first), polls, account, start, n, end, trace)
    ensures Told(first, polls, account, start, n, end, trace)
  {
    var records := RecordsOf(Begun(first), polls, account, n);
    var last := if end == NoSignIn then records[n] else RecordOf(After(Begun(first), polls, account, n + 1));
    BegunRemembers(first);
    RunStory(first, polls, account, start, n);
    RunCloses(Begun(first), polls, account, start, n, end, trace);
    assert Tells(first, polls, account, start, n, records, last, end, trace);
  }

  lemma DoesExtends(r: Record, poll: Poll, account: Account, r': Record, signal: Signal)
    requires Does(r, poll, account, r', signal)
    ensures r.trace <= r'.trace
  {
    if poll.history.Entries? && ReturnsNone(r.trace, poll.history.urls) {
      var flow := Latest(r.trace).value;
      if next :| Usable(poll.start, next) {
        assert Sending(r.trace + [Issued(next)], poll, next, r'.trace, signal) ==> r.trace <= r'.trace;
      }
    } else if poll.history.Entries? {
      FirstReturn(r.trace, poll.history.urls);
    }
  }

  lemma {:induction false} FirstReturn(t: seq<Event>, urls: seq<Url>)
    requires !ReturnsNone(t, urls)
    ensures exists k :: ReturnsFirst(t, urls, k)
  {
    if Returns(t, urls[0]) {
      assert ReturnsFirst(t, urls, 0);
    } else {
      var k :| 0 <= k < |urls| && Returns(t, urls[k]);
      assert urls[1..][k - 1] == urls[k];
      FirstReturn(t, urls[1..]);
      var j :| ReturnsFirst(t, urls[1..], j);
      assert ReturnsFirst(t, urls, j + 1);
    }
  }

  lemma {:induction false} StoryGrows(first: Flow, polls: nat -> Poll, account: Account, start: int,
                                      records: seq<Record>, i: nat, j: nat)
    requires Story(first, polls, account, start, records) && i <= j < |records|
    ensures records[i].trace <= records[j].trace
  {
    if i < j {
      StoryGrows(first, polls, account, start, records, i, j - 1);
      assert Follows(records, polls, account, start, j - 1);
      DoesExtends(records[j - 1], polls(j - 1), account, records[j], Again);
    }
  }

  /** What poll `k` leaves. */
  function Left(records: seq<Record>, last: Record, k: nat): Record
    requires k < |records|
  {
    if k + 1 < |records| then records[k + 1] else last
  }

  /** Whatever a poll of the run left stays in the job's trace. */
  lemma PollIsTold(first: Flow, polls: nat -> Poll, account: Account, start: int, n: nat, records: seq<Record>,
                   last: Record, end: End, trace: seq<Event>, k: nat)
    requires Tells(first, polls, account, start, n, records, last, end, trace) && k <= n
    requires polls(k).guard < start + 900_000
    ensures Left(records, last, k).trace <= trace
  {
    if k < n {
      StoryGrows(first, polls, account, start, records, k + 1, n);
      LastExtends(records[n], polls(n), account, start, last, end, trace);
    }
  }

  lemma PollIsMade(first: Flow, polls: nat -> Poll, account: Account, start: int, n: nat, records: seq<Record>,
                   last: Record, end: End, trace: seq<Event>, k: nat)
    requires Tells(first, polls, account, start, n, records, last, end, trace) && k <= n
    requires polls(k).guard < start + 900_000
    ensures exists signal :: Does(records[k], polls(k), account, Left(records, last, k), signal)
    ensures k < n ==> Does(records[k], polls(k), account, Left(records, last, k), Again)
  {
    if k < n {
      assert Follows(records, polls, account, start, k);
      assert Does(records[k], polls(k), account, Left(records, last, k), Again);
    } else {
      assert Left(records, last, k) == last;
    }
  }

  lemma LastExtends(r: Record, poll: Poll, account: Account, start: int, last: Record, end: End, trace: seq<Event>)
    requires Closes(r, poll, account, start, last, end, trace)
    ensures r.trace <= trace
  {
    if poll.guard < start + 900_000 {
      var signal :| Does(r, poll, account, last, signal);
      DoesExtends(r, poll, account, last, signal);
    }
  }

  /** The poll finds the page on screen, and no callback of a flow of the job. */
  predicate OnScreen(t: seq<Event>, poll: Poll, page: Url) {
    && poll.history.Entries? && ReturnsNone(t, poll.history.urls) && Latest(t).Some?
    && var k := if poll.history.current.Some? then poll.history.current.value else |poll.history.urls| - 1;
       0 <= k < |poll.history.urls| && page == poll.history.urls[k]
  }

  /** If the loop gets to a poll that shows the page to consent on and the account can be read, its trace holds the
      address read. Another address is its end. For the expected one the trace holds the attempt to click too, and the
      click if it was answered. */
  lemma ConsentIsGiven(first: Flow, polls: nat -> Poll, account: Account, start: int, n: nat, records: seq<Record>,
                       last: Record, end: End, trace: seq<Event>, k: nat, page: Url)
    requires Tells(first, polls, account, start, n, records, last, end, trace) && k <= n
    requires polls(k).guard < start + 900_000
    requires OnScreen(records[k].trace, polls(k), page) && polls(k).email.Text?
    requires AsksConsent(records[k].trace, polls(k), page, Latest(records[k].trace).value)
    ensures
      var t, email := records[k].trace, polls(k).email.email;
      if account.normal(email) != account.expected then
        k == n && end == OtherAccount && trace == t + [Read(email)]
      else
        && t + [Read(email), Tried(page, polls(k).judged)] <= trace
        && (polls(k).click.Clicked? ==> t + [Read(email), Tried(page, polls(k).judged), Acknowledged] <= trace)
  {
    PollIsMade(first, polls, account, start, n, records, last, end, trace, k);
    PollIsTold(first, polls, account, start, n, records, last, end, trace, k);
    var signal :| Does(records[k], polls(k), account, Left(records, last, k), signal);
    var t := records[k].trace;
    assert Consenting(t, polls(k), page, account, Left(records, last, k).trace, signal);
  }

  /** If the loop gets to a poll that shows an authorize page too late, and the pause is over, its trace holds the next
      flow, if the proxy answers with one, and the way there. For the page of another flow it holds the way back. */
  lemma TabIsSent(first: Flow, polls: nat -> Poll, account: Account, start: int, n: nat, records: seq<Record>,
                  last: Record, end: End, trace: seq<Event>, k: nat, page: Url)
    requires Tells(first, polls, account, start, n, records, last, end, trace) && k <= n
    requires polls(k).guard < start + 900_000 && OnScreen(records[k].trace, polls(k), page)
    ensures
      var r := records[k];
      var flow := Latest(r.trace).value;
      && (AsksTooLate(r.trace, polls(k), page, flow, r.pause) ==>
            forall next | Usable(polls(k).start, next) :: r.trace + [Issued(next), Navigated(next.url)] <= trace)
      && (AsksForOther(r.trace, polls(k), page, flow, r.pause) ==> r.trace + [Navigated(flow.url)] <= trace)
  {
    PollIsMade(first, polls, account, start, n, records, last, end, trace, k);
    PollIsTold(first, polls, account, start, n, records, last, end, trace, k);
    var r, left := records[k], Left(records, last, k);
    var signal :| Does(r, polls(k), account, left, signal);
    SentOnPage(r, polls(k), page, account, Latest(r.trace).value, left, signal);
  }

  lemma SentOnPage(r: Record, poll: Poll, page: Url, account: Account, flow: Flow, r': Record, signal: Signal)
    requires DoesOnPage(r, poll, page, account, flow, r', signal)
    ensures AsksForOther(r.trace, poll, page, flow, r.pause) ==> r.trace + [Navigated(flow.url)] == r'.trace
    ensures AsksTooLate(r.trace, poll, page, flow, r.pause) ==>
      forall next | Usable(poll.start, next) :: r.trace + [Issued(next), Navigated(next.url)] == r'.trace
  {
    forall next | Usable(poll.start, next) && AsksTooLate(r.trace, poll, page, flow, r.pause)
      ensures r.trace + [Issued(next), Navigated(next.url)] == r'.trace
    {
      assert Sending(r.trace + [Issued(next)], poll, next, r'.trace, signal);
    }
  }

  // ------------------------------------------------------------ the loop itself

  /** The restart branch of a poll, on the variables it changes. */
  method Restart(flow: Flow, issued: map<string, Flow>, trace: seq<Event>, poll: Poll, expired: bool, ghost s: State)
    returns (flow': Flow, issued': map<string, Flow>, trace': seq<Event>, signal: Signal)
    requires s.flow == flow && s.issued == issued && s.trace == trace
    ensures (s.(flow := flow', issued := issued', trace := trace', retryFlowAt := poll.paused + FLOW_RETRY_MS), signal)
         == Restarted(s, poll, expired)
  {
    flow', issued', trace' := flow, issued, trace;
    if expired {
      var next := Started(poll.start);
      if next.Err? {
        return flow', issued', trace', Caught(next.error);
      }
      flow' := next.value;
      issued' := issued'[flow'.state := flow'];
      trace' := trace' + [Issued(flow')];
    }
    trace' := trace' + [Navigated(flow'.url)];
    signal := if poll.sent.Ok? then Again else Caught(poll.sent.fatal);
  }

  /** The consent branch of a poll. */
  method Consent(flow: Flow, clickedFor: Option<string>, phase: Phase, trace: seq<Event>, poll: Poll, href: Url,
                 account: Account, ghost s: State)
    returns (clickedFor': Option<string>, phase': Phase, trace': seq<Event>, signal: Signal)
    requires s.flow == flow && s.clickedFor == clickedFor && s.phase == phase && s.trace == trace
    ensures (s.(clickedFor := clickedFor', phase := phase', trace := trace'), signal) ==
      Consented(s, poll, href, account)
  {
    clickedFor', phase', trace', signal := clickedFor, phase, trace, Again;
    match poll.email
    case NotRead(fatal) => signal := Caught(fatal);
    case NotText => phase' := WaitingForLogin;
    case Text(email) =>
      trace' := trace' + [Read(email)];
      if account.normal(email) != account.expected {
        return clickedFor', phase', trace', WrongAccount;
      }
      trace' := trace' + [Tried(href, poll.judged)];
      match poll.click
      case NoReply(fatal) => signal := Caught(fatal);
      case NoButton =>
      case Clicked =>
        clickedFor', phase' := Some(flow.state), Authorizing;
        trace' := trace' + [Acknowledged];
  }

  /** What a poll makes of the page the tab shows. */
  method Look(flow: Flow, issued: map<string, Flow>, clickedFor: Option<string>, retryFlowAt: int, phase: Phase,
              trace: seq<Event>, poll: Poll, href: Url, account: Account, ghost s: State)
    returns (flow': Flow, issued': map<string, Flow>, clickedFor': Option<string>, retryFlowAt': int, phase': Phase,
             trace': seq<Event>, signal: Signal)
    requires s == State(flow, issued, clickedFor, retryFlowAt, s.unreadable, phase, trace)
    ensures (State(flow', issued', clickedFor', retryFlowAt', s.unreadable, phase', trace'), signal)
         == Looked(s, poll, href, account)
  {
    flow', issued', clickedFor', retryFlowAt', phase', trace' := flow, issued, clickedFor, retryFlowAt, phase, trace;
    signal := Again;
    var current := OnAuthorize(href) && StateOf(href) in issued && issued[StateOf(href)].state == flow.state;
    var expired := poll.judged - flow.at > FLOW_TTL_MS;
    if OnAuthorize(href) && clickedFor != Some(flow.state) && (expired || !current) && poll.retried >= retryFlowAt {
      retryFlowAt' := poll.paused + FLOW_RETRY_MS;
      flow', issued', trace', signal := Restart(flow, issued, trace, poll, expired, s);
    } else if OnAuthorize(href) && current && !expired && clickedFor != Some(flow.state) {
      clickedFor', phase', trace', signal := Consent(flow, clickedFor, phase, trace, poll, href, account, s);
    } else if OnClaude(href) && clickedFor != Some(flow.state) {
      phase' := WaitingForLogin;
    }
  }

  /** One poll: the tab's history, a callback in it, or the page on screen. */
  method PollOnce(flow: Flow, issued: map<string, Flow>, clickedFor: Option<string>, retryFlowAt: int, unreadable: nat,
                  phase: Phase, trace: seq<Event>, poll: Poll, account: Account, ghost s: State)
    returns (flow': Flow, issued': map<string, Flow>, clickedFor': Option<string>, retryFlowAt': int, unreadable': nat,
             phase': Phase, trace': seq<Event>, signal: Signal)
    requires s == State(flow, issued, clickedFor, retryFlowAt, unreadable, phase, trace)
    ensures (State(flow', issued', clickedFor', retryFlowAt', unreadable', phase', trace'), signal) ==
      Polled(s, poll, account)
  {
    flow', issued', clickedFor', retryFlowAt', phase', trace' := flow, issued, clickedFor, retryFlowAt, phase, trace;
    match poll.history
    case Unread(fatal) =>
      unreadable' := unreadable + 1;
      signal := if unreadable' >= UNREADABLE_LIMIT then Broken else Caught(fatal);
    case Entries(urls, index) =>
      unreadable' := 0;
      var callback := FirstCallback(urls, issued);
      if callback.Some? {
        flow', signal := issued[StateOf(callback.value)], Found(callback.value);
      } else {
        flow', issued', clickedFor', retryFlowAt', phase', trace', signal := Look(
          flow, issued, clickedFor, retryFlowAt, phase, trace, poll, Shown(urls, index), account, s.(unreadable := 0));
      }
  }

  lemma AfterNext(s: State, polls: nat -> Poll, account: Account, n: nat)
    ensures Polled(After(s, polls, account, n), polls(n), account) ==
      (After(s, polls, account, n + 1), SignalAt(s, polls, account, n))
  {
  }

  lemma NextPoll(s: State, polls: nat -> Poll, account: Account, start: int, n: nat)
    requires Clocks(polls, start) && Reaches(s, polls, account, start, n)
    requires polls(n).guard < start + WINDOW_MS && SignalAt(s, polls, account, n) == Again
    ensures Reaches(s, polls, account, start, n + 1) && polls(n).guard < polls(n + 1).guard
  {
    assert GoesOn(s, polls, account, start, n) && PollFits(polls, n);
  }

  /** The polling loop, until something ends it or the window is over (`signal` is then `Again`). */
  method WatchTab(first: Flow, polls: nat -> Poll, account: Account, start: int)
    returns (signal: Signal, flow: Flow, trace: seq<Event>, n: nat, ghost s: State)
    requires Clocks(polls, start)
    ensures Reaches(Begun(first), polls, account, start, n)
    ensures polls(n).guard < start + WINDOW_MS <==> signal != Again
    ensures signal != Again ==> signal == SignalAt(Begun(first), polls, account, n)
    ensures s == After(Begun(first), polls, account, if signal == Again then n else n + 1)
    ensures flow == s.flow && trace == s.trace
  {
    s := Begun(first);
    flow, trace, signal, n := first, [Issued(first), Navigated(first.url)], Again, 0;
    var issued, clickedFor, retryFlowAt, unreadable, phase := map[first.state := first], None, 0, 0, Checking;
    var deadline := start + WINDOW_MS;
    while polls(n).guard < deadline
      invariant Reaches(Begun(first), polls, account, start, n) && signal == Again
      invariant s == After(Begun(first), polls, account, n)
      invariant s == State(flow, issued, clickedFor, retryFlowAt, unreadable, phase, trace)
      decreases deadline - polls(n).guard
    {
      var poll := polls(n);
      flow, issued, clickedFor, retryFlowAt, unreadable, phase, trace, signal := PollOnce(
        flow, issued, clickedFor, retryFlowAt, unreadable, phase, trace, poll, account, s);
      AfterNext(Begun(first), polls, account, n);
      s := State(flow, issued, clickedFor, retryFlowAt, unreadable, phase, trace);
      if signal != Again {
        return;
      }
      NextPoll(Begun(first), polls, account, start, n);
      n := n + 1;
    }
  }

  /** One job, from its first flow to the hand-over or the reason why there is none. */
  method Reconnect(first: Flow, polls: nat -> Poll, account: Account, start: int)
    returns (end: End, trace: seq<Event>, n: nat)
    requires first.state != "" && first.url.secure && OnAuthorize(first.url) && Clocks(polls, start)
    ensures Ends(Begun(first), polls, account, start, n, end, trace)
    ensures Told(first, polls, account, start, n, end, trace)
    ensures Safe(trace, account) && Flows(trace) <= 6
  {
    var signal, flow;
    ghost var s;
    signal, flow, trace, n, s := WatchTab(first, polls, account, start);
    match signal {
      case Again => end := NoSignIn;
      case Broken => end := ConnectionLost;
      case WrongAccount => end := OtherAccount;
      case Found(callback) =>
        end := Handed(callback, flow.state);
        trace := trace + [HandedOver(callback, flow.state)];
    }
    BegunKeepsInv(first, account);
    EndIsSafe(Begun(first), polls, account, start, n, end, trace);
    AtMostSixFlows(first, polls, account, start, n, end, trace);
    RunIsTold(first, polls, account, start, n, end, trace);
  }

  // ------------------------------------------------------------ the whole job

  datatype Identity = Ready | LoginRequired | Mismatched | Unverified

  /** What a job meets before its loop: whether the account has a browser bound, who is signed in there, whether the
      lease was granted, the first flow, and whether the tab could be opened. */
  datatype Setup = Setup(bound: bool, identity: Identity, leased: bool, start: Start, tabOpen: bool)

  /** One poll of the proxy's status, read at `now`. */
  datatype Status = Saved | Refused | Pending | Unanswered

  datatype StatusPoll = StatusPoll(now: int, status: Status)

  const STATUS_TIMEOUT_MS: int := 90_000
  const STATUS_POLL_MS: int := 2_000

  /** The clock moves on by a pause or more between polls. */
  ghost predicate StatusClock(statuses: nat -> StatusPoll) {
    forall k: nat :: StatusSpaced(statuses, k)
  }

  predicate StatusSpaced(statuses: nat -> StatusPoll, k: nat) {
    statuses(k).now + STATUS_POLL_MS <= statuses(k + 1).now
  }

  /** The proxy confirms the credential at poll `n`, after nothing but pending answers. */
  ghost predicate ConfirmedAt(statuses: nat -> StatusPoll, until: int, n: nat) {
    && statuses(n).now < until && statuses(n).status.Saved?
    && forall k: nat | k < n :: statuses(k).now < until && statuses(k).status.Pending?
  }

  /** Waits for the proxy to save the credential. */
  method AwaitSaved(statuses: nat -> StatusPoll, until: int) returns (saved: bool)
    requires StatusClock(statuses)
    ensures saved <==> exists n: nat :: ConfirmedAt(statuses, until, n)
  {
    var n := 0;
    while statuses(n).now < until
      invariant forall k: nat | k < n :: statuses(k).now < until && statuses(k).status.Pending?
      decreases until - statuses(n).now
    {
      if !statuses(n).status.Pending? {
        assert statuses(n).status.Saved? ==> ConfirmedAt(statuses, until, n);
        OnlyFirst(statuses, until, n);
        return statuses(n).status.Saved?;
      }
      assert StatusSpaced(statuses, n);
      n := n + 1;
    }
    OnlyFirst(statuses, until, n);
    saved := false;
  }

  /** What is decided at the first answer that is not pending, or at the end of the time, is decided. */
  lemma OnlyFirst(statuses: nat -> StatusPoll, until: int, n: nat)
    requires forall k: nat | k < n :: statuses(k).status.Pending?
    requires statuses(n).now >= until || !statuses(n).status.Pending?
    ensures forall m: nat :: ConfirmedAt(statuses, until, m) ==> m == n
  {
    forall m: nat | ConfirmedAt(statuses, until, m) ensures m == n {
      assert m < n ==> statuses(m).status.Pending?;
    }
  }

  /** The job reaches its loop. */
  predicate Begins(setup: Setup) {
    setup.bound && setup.identity.Ready? && setup.leased && Started(setup.start).Ok? && setup.tabOpen
  }

  /** What the inventory is searched for once a sign-in was saved. */
  function OwnerOf(account: Account, stable: string): Credential.Owner {
    Credential.Owner(account.expected, account.normal, stable)
  }

  /** What follows a hand-over: the proxy takes it, confirms it in time, and the inventory is read back. */
  method Exchange(posted: int, statuses: nat -> StatusPoll, until: int, files: Option<seq<Credential.File>>,
                  links: Credential.Links, owner: Credential.Owner)
    returns (succeeded: bool, notes: seq<Credential.Note>)
    requires StatusClock(statuses)
    ensures succeeded <==>
      && posted == 200 && (exists n: nat :: ConfirmedAt(statuses, until, n))
      && Credential.Succeeds(Credential.Verify(files, links, owner))
    ensures succeeded && files.Some? ==> Credential.Verify(files, links, owner) == Credential.Verified(notes)
    ensures exists verdict ::
      && Credential.VerdictAsTold(files, links, owner, verdict)
      && (succeeded <==> && posted == 200 && (exists n: nat :: ConfirmedAt(statuses, until, n))
                         && (verdict.Unread? || verdict.Verified?))
      && (succeeded && verdict.Verified? ==> notes == verdict.notes)
  {
    Credential.VerifyIsTold(files, links, owner);
    succeeded, notes := false, [];
    if posted != 200 {
      return;
    }
    var saved := AwaitSaved(statuses, until);
    if saved {
      var verdict := Credential.Verify(files, links, owner);
      succeeded, notes := Credential.Succeeds(verdict), if verdict.Verified? then verdict.notes else [];
    }
  }

  /** One reconnect job. `posted` is the HTTP status of the hand-over, `files` the proxy's inventory read afterwards. It
      asks for a flow only when the expected account is signed in, and succeeds exactly when a callback of its own was
      handed over, the proxy took it and confirmed it in time, and the inventory does not show that the sign-in missed
      this account's credential; its trace is safe in every case. */
  method RunReauth(setup: Setup, polls: nat -> Poll, account: Account, start: int, posted: int,
                   statuses: nat -> StatusPoll, until: int, files: Option<seq<Credential.File>>,
                   links: Credential.Links, stable: string)
    returns (succeeded: bool, notes: seq<Credential.Note>, trace: seq<Event>, ghost end: Option<End>)
    requires Clocks(polls, start) && StatusClock(statuses)
    ensures Safe(trace, account) && Flows(trace) <= 6
    ensures !setup.bound || !setup.identity.Ready? || !setup.leased ==> trace == []
    ensures end.Some? <==> Begins(setup)
    ensures end.Some? ==>
      exists n: nat :: Ends(Begun(Started(setup.start).value), polls, account, start, n, end.value, trace)
    ensures !setup.bound || !setup.identity.Ready? || !setup.leased || Unusable(setup.start) ==>
      trace == [] && end.None?
    ensures forall first | setup.bound && setup.identity.Ready? && setup.leased && Usable(setup.start, first) ::
      if !setup.tabOpen then trace == [Issued(first)] && end.None?
      else end.Some? && exists n: nat :: Told(first, polls, account, start, n, end.value, trace)
    ensures end.None? ==> |trace| <= 1
    ensures succeeded <==>
      && end.Some? && end.value.Handed? && posted == 200
      && (exists n: nat :: ConfirmedAt(statuses, until, n))
      && Credential.Succeeds(Credential.Verify(files, links, OwnerOf(account, stable)))
    ensures succeeded && files.Some? ==>
      Credential.Verify(files, links, OwnerOf(account, stable)) == Credential.Verified(notes)
    ensures exists verdict ::
      && Credential.VerdictAsTold(files, links, Credential.Owner(account.expected, account.normal, stable), verdict)
      && (succeeded <==>
            && end.Some? && end.value.Handed? && posted == 200
            && (exists n: nat :: ConfirmedAt(statuses, until, n)) && (verdict.Unread? || verdict.Verified?))
      && (succeeded && verdict.Verified? ==> notes == verdict.notes)
  {
    Credential.VerifyIsTold(files, links, OwnerOf(account, stable));
    succeeded, notes, trace, end := false, [], [], None;
    if !setup.bound || !setup.identity.Ready? || !setup.leased {
      return;
    }
    var first := Started(setup.start);
    StartedMeans(setup.start);
    if first.Err? {
      return;
    }
    FirstIsSafe(first.value, account);
    FlowsOf([], Issued(first.value));
    assert [] + [Issued(first.value)] == [Issued(first.value)];
    if !setup.tabOpen {
      trace := [Issued(first.value)];
      return;
    }
    var outcome, n;
    outcome, trace, n := Reconnect(first.value, polls, account, start);
    end := Some(outcome);
    if outcome.Handed? {
      succeeded, notes := Exchange(posted, statuses, until, files, links, OwnerOf(account, stable));
    }
  }
}
