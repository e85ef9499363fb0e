/** Browser leases of one process: who holds a profile's turn, and when it is given back. */
module BrowserLease {
  import opened Basics
  import opened BrowserTurns

  const MAX_TIMER_MS: int := 0x7FFF_FFFF

  /** What has become of the call that took a turn. `Holding` names its lease entry. */
  datatype Stage = InQueue | Posting | Holding(entry: nat) | Ended

  /** An armed expiry timer: when it was set, for which expiry, and when it fires. */
  datatype Timer = Timer(setAt: int, expires: int, fireAt: int)

  /** A lease this process was given, stored under its id. A manual one has given its turn back already. Once its
      timer is gone the entry is closed. */
  datatype Entry = Entry(id: string, profile: string, manual: bool, turn: nat, timer: Option<Timer>)

  /** One call of `releaseBrowserLease`, with the entry it found when it began. */
  datatype Release = Release(entry: Option<nat>, id: string, over: bool)

  /** One call of `renewBrowserLease`. */
  datatype Renewal = Renewal(id: string, over: bool)

  datatype Process = Process(
    queue: Queue, stages: seq<Stage>, entries: seq<Entry>, held: map<string, nat>,
    manualUntil: map<string, int>, releases: seq<Release>, renewals: seq<Renewal>, channel: Channel, now: int)

  function NonNegative(x: int): int {
    if x < 0 then 0 else x
  }

  function Least(a: int, b: int): int {
    if a < b then a else b
  }

  function Armed(now: int, expires: int): Timer {
    Timer(now, expires, now + Least(MAX_TIMER_MS, NonNegative(expires - now) + 1000))
  }

  function ManualUntil(p: Process, profile: string): int {
    if profile in p.manualUntil then p.manualUntil[profile] else 0
  }

  // ------------------------------------------------------------ steps between await points

  datatype Step =
    | Tick(ms: nat)
    | Call(profile: string, manual: bool)
    | TurnGranted(turn: nat)
    | QueueTimeout(turn: nat)
    | TailResolved(turn: nat)
    | LeaseGranted(turn: nat, manual: bool, id: string, expires: int)
    | LeaseRefused(turn: nat)
    | TimerFired(entry: nat)
    | RenewalBegun(id: string)
    | RenewalEnded(renewal: nat, until: Option<int>)
    | ReleaseBegun(id: string)
    | ReleaseEnded(release: nat, released: bool)
    | RequestSent(caller: Caller)
    | RequestStarted(request: nat)
    | RequestEnded(request: nat)

  /** The caller is in its request loop, with no request under way. */
  predicate MaySend(p: Process, caller: Caller) {
    && Idle(p.channel, caller)
    && match caller
       case ForTurn(n) => n < |p.stages| && p.stages[n].Posting?
       case ForRenewal(k) => k < |p.renewals| && !p.renewals[k].over
       case ForRelease(r) => r < |p.releases| && !p.releases[r].over
  }

  predicate Possible(p: Process, step: Step) {
    match step
    case Tick(_) => true
    case Call(_, _) => true
    case TurnGranted(n) => CanGrant(p.queue, n)
    case QueueTimeout(n) => n < |p.queue.turns| && p.queue.turns[n].phase.Waiting?
    case TailResolved(n) => CanSettle(p.queue, n)
    case LeaseGranted(n, _, _, expires) =>
      n < |p.stages| && p.stages[n].Posting? && Answered(p.channel, ForTurn(n)) && expires > p.now
    case LeaseRefused(n) => n < |p.stages| && p.stages[n].Posting? && Answered(p.channel, ForTurn(n))
    case TimerFired(e) => e < |p.entries| && p.entries[e].timer.Some? && p.entries[e].timer.value.fireAt <= p.now
    case RenewalBegun(_) => true
    case RenewalEnded(k, expires) =>
      && k < |p.renewals| && !p.renewals[k].over && Answered(p.channel, ForRenewal(k))
      && (expires.Some? ==> expires.value > p.now)
    case ReleaseBegun(_) => true
    case ReleaseEnded(r, released) =>
      && r < |p.releases| && !p.releases[r].over && Idle(p.channel, ForRelease(r))
      && (released ==> Answered(p.channel, ForRelease(r)))
    case RequestSent(caller) => MaySend(p, caller)
    case RequestStarted(k) => CanStart(p.channel, k)
    case RequestEnded(k) => CanEnd(p.channel, k)
  }

  /** An automatic acquire fails at once while a person's session lasts; others join the queue. */
  function Called(p: Process, profile: string, manual: bool): Process {
    if !manual && ManualUntil(p, profile) > p.now then p
    else p.(queue := Arrive(p.queue, profile), stages := p.stages + [InQueue])
  }

  function GivenBack(p: Process, n: nat): Process
    requires n < |p.stages| && n < |p.queue.turns|
  {
    p.(queue := Free(p.queue, n), stages := p.stages[n := Ended])
  }

  function Granted(p: Process, n: nat, manual: bool, id: string, expires: int): Process
    requires n < |p.stages| && n < |p.queue.turns|
  {
    var e := |p.entries|;
    var entry := Entry(id, p.queue.turns[n].profile, manual, n, Some(Armed(p.now, expires)));
    var base := if manual then GivenBack(p, n).(manualUntil := p.manualUntil[p.queue.turns[n].profile := expires])
                else p.(stages := p.stages[n := Holding(e)]);
    base.(entries := p.entries + [entry], held := p.held[id := e])
  }

  /** The entry is closed and lets go of its turn; a manual one has none left. */
  function EntryFreed(p: Process, e: nat): Process
    requires e < |p.entries| && p.entries[e].turn < |p.stages| && p.entries[e].turn < |p.queue.turns|
  {
    var closed := p.(entries := p.entries[e := p.entries[e].(timer := None)]);
    if p.entries[e].manual then closed else GivenBack(closed, p.entries[e].turn)
  }

  function DropHeld(held: map<string, nat>, e: nat, id: string): map<string, nat> {
    if id in held && held[id] == e then held - {id} else held
  }

  /** The timer's callback. */
  function Fired(p: Process, e: nat): Process
    requires e < |p.entries| && p.entries[e].timer.Some? && p.entries[e].turn < |p.stages|
    requires p.entries[e].turn < |p.queue.turns|
  {
    var entry := p.entries[e];
    EntryFreed(p, e).(
      held := DropHeld(p.held, e, entry.id),
      manualUntil := if entry.manual && ManualUntil(p, entry.profile) <= entry.timer.value.expires
      then p.manualUntil - {entry.profile} else p.manualUntil)
  }

  function Rearmed(p: Process, id: string, expires: int): Process
    requires id in p.held ==> p.held[id] < |p.entries|
  {
    if id !in p.held then p
    else
      var e := p.held[id];
      p.(entries := p.entries[e := p.entries[e].(timer := Some(Armed(p.now, expires)))],
         manualUntil := if p.entries[e].manual then p.manualUntil[p.entries[e].profile := expires] else p.manualUntil)
  }

  /** The end of a renewal; a failed one changes nothing. */
  function RenewalDone(p: Process, k: nat, expires: Option<int>): Process
    requires k < |p.renewals| && forall id | id in p.held :: p.held[id] < |p.entries|
  {
    var over := p.(renewals := p.renewals[k := p.renewals[k].(over := true)]);
    if expires.None? then over else Rearmed(over, p.renewals[k].id, expires.value)
  }

  /** The end of a release: an automatic turn is given back even when the close failed, a person's session only
      ends when it was really closed. */
  function ReleaseDone(p: Process, r: nat, released: bool): Process
    requires r < |p.releases|
    requires p.releases[r].entry.Some? ==>
      var e := p.releases[r].entry.value;
      e < |p.entries| && p.entries[e].turn < |p.stages| && p.entries[e].turn < |p.queue.turns|
  {
    var over := p.(releases := p.releases[r := p.releases[r].(over := true)]);
    if p.releases[r].entry.None? then over
    else
      var e := p.releases[r].entry.value;
      var entry := p.entries[e];
      if !released && entry.manual then over
      else
        EntryFreed(over, e).(
          held := DropHeld(p.held, e, p.releases[r].id),
          manualUntil := if entry.manual then p.manualUntil - {entry.profile} else p.manualUntil)
  }

  ghost predicate Sized(p: Process) {
    && |p.stages| == |p.queue.turns|
    && (forall e | 0 <= e < |p.entries| :: p.entries[e].turn < |p.stages|)
    && (forall id | id in p.held :: p.held[id] < |p.entries|)
    && (forall r | 0 <= r < |p.releases| && p.releases[r].entry.Some? :: p.releases[r].entry.value < |p.entries|)
  }

  ghost function After(p: Process, step: Step): Process
    requires Sized(p) && Possible(p, step)
  {
    match step
    case Tick(ms) => p.(now := p.now + ms)
    case Call(profile, manual) => Called(p, profile, manual)
    case TurnGranted(n) => p.(queue := Phased(p.queue, n, Phase.Granted), stages := p.stages[n := Posting])
    case QueueTimeout(n) => p.(queue := Phased(p.queue, n, TimedOut), stages := p.stages[n := Ended])
    case TailResolved(n) => p.(queue := Settle(p.queue, n))
    case LeaseGranted(n, manual, id, expires) => Granted(p, n, manual, id, expires)
    case LeaseRefused(n) => GivenBack(p, n)
    case TimerFired(e) => Fired(p, e)
    case RenewalBegun(id) => p.(renewals := p.renewals + [Renewal(id, false)])
    case RenewalEnded(k, expires) => RenewalDone(p, k, expires)
    case ReleaseBegun(id) =>
      p.(releases := p.releases + [Release(if id in p.held then Some(p.held[id]) else None, id, false)])
    case ReleaseEnded(r, released) => ReleaseDone(p, r, released)
    case RequestSent(caller) => p.(channel := Submitted(p.channel, caller))
    case RequestStarted(k) => p.(channel := Moved(p.channel, k, Running))
    case RequestEnded(k) => p.(channel := Moved(p.channel, k, Done))
  }

  // ------------------------------------------------------------ the invariant

  /** The stage of a call and the phase of its turn go together. */
  predicate StageFits(p: Process, n: nat)
    requires n < |p.stages| && n < |p.queue.turns|
  {
    match p.stages[n]
    case InQueue => p.queue.turns[n].phase.Waiting?
    case Posting => p.queue.turns[n].phase.Granted?
    case Holding(e) =>
      && p.queue.turns[n].phase.Granted? && e < |p.entries| && !p.entries[e].manual && p.entries[e].turn == n
      && p.entries[e].timer.Some?
    case Ended => Over(p.queue.turns[n])
  }

  /** An open automatic entry holds its turn, and the timer that will give it back is armed for its expiry. */
  predicate EntryFits(p: Process, e: nat)
    requires e < |p.entries| && p.entries[e].turn < |p.stages| && p.entries[e].turn < |p.queue.turns|
  {
    var entry := p.entries[e];
    && entry.profile == p.queue.turns[entry.turn].profile
    && (!entry.manual ==> p.stages[entry.turn] == if entry.timer.Some? then Holding(e) else Ended)
    && (entry.timer.Some? ==> TimerFits(entry.timer.value, p.now))
  }

  predicate TimerFits(t: Timer, now: int) {
    t == Armed(t.setAt, t.expires) && t.setAt <= now && t.setAt < t.expires
  }

  ghost predicate HeldFits(p: Process)
    requires Sized(p)
  {
    && (forall id | id in p.held :: p.entries[p.held[id]].id == id && p.entries[p.held[id]].timer.Some?)
    && (forall r | 0 <= r < |p.releases| && p.releases[r].entry.Some? ::
          p.entries[p.releases[r].entry.value].id == p.releases[r].id)
  }

  predicate Session(p: Process, e: nat, profile: string) {
    e < |p.entries| && p.entries[e].manual && p.entries[e].profile == profile && p.entries[e].timer.Some?
    && profile in p.manualUntil && p.entries[e].timer.value.expires == p.manualUntil[profile]
  }

  /** What makes automatic reads fail at once is always a lease of this process that is still open. */
  ghost predicate ManualFits(p: Process) {
    forall profile | profile in p.manualUntil :: exists e :: Session(p, e, profile)
  }

  ghost predicate Fits(p: Process) {
    && Sized(p)
    && (forall n | 0 <= n < |p.stages| :: StageFits(p, n))
    && (forall e | 0 <= e < |p.entries| :: EntryFits(p, e))
  }

  ghost predicate Inv(p: Process) {
    Valid(p.queue) && Fits(p) && HeldFits(p) && ManualFits(p) && Serial(p.channel)
  }

  // ------------------------------------------------------------ each step keeps it

  lemma SessionsKept(p: Process, p': Process)
    requires ManualFits(p) && p'.entries == p.entries && p'.manualUntil == p.manualUntil
    ensures ManualFits(p')
  {
    forall profile | profile in p'.manualUntil ensures exists e :: Session(p', e, profile) {
      var e :| Session(p, e, profile);
      assert Session(p', e, profile);
    }
  }

  lemma CallKeepsInv(p: Process, profile: string, manual: bool)
    requires Inv(p)
    ensures Inv(Called(p, profile, manual))
  {
    if manual || ManualUntil(p, profile) <= p.now {
      ArriveKeepsValid(p.queue, profile);
      JoinedFits(p, profile);
      SessionsKept(p, Called(p, profile, manual));
    }
  }

  lemma JoinedFits(p: Process, profile: string)
    requires Fits(p)
    ensures Fits(p.(queue := Arrive(p.queue, profile), stages := p.stages + [InQueue]))
  {
    var p' := p.(queue := Arrive(p.queue, profile), stages := p.stages + [InQueue]);
    assert forall i | 0 <= i < |p.queue.turns| :: p'.queue.turns[i] == p.queue.turns[i];
    forall n | 0 <= n < |p'.stages| ensures StageFits(p', n) {
      assert n < |p.stages| ==> StageFits(p, n);
    }
    forall e | 0 <= e < |p'.entries| ensures EntryFits(p', e) {
      assert EntryFits(p, e);
    }
  }

  /** A call is granted its turn or gives up; nobody else notices. */
  lemma DecidedKeepsInv(p: Process, n: nat, ready: bool)
    requires Inv(p) && Possible(p, if ready then TurnGranted(n) else QueueTimeout(n))
    ensures Inv(After(p, if ready then TurnGranted(n) else QueueTimeout(n)))
  {
    var step := if ready then TurnGranted(n) else QueueTimeout(n);
    var p' := After(p, step);
    QueueStep(p, step);
    assert StageFits(p, n);
    forall m | 0 <= m < |p'.stages| ensures StageFits(p', m) {
      assert StageFits(p, m);
    }
    forall e | 0 <= e < |p'.entries| ensures EntryFits(p', e) {
      assert EntryFits(p, e);
    }
    SessionsKept(p, p');
  }

  lemma SettleTouchesNoPhase(q: Queue, n: nat)
    requires n < |q.turns|
    ensures |Settle(q, n).turns| == |q.turns|
    ensures forall i | 0 <= i < |q.turns| ::
      Settle(q, n).turns[i].phase == q.turns[i].phase && Settle(q, n).turns[i].profile == q.turns[i].profile
  {
  }

  lemma ResolvedFits(p: Process, n: nat)
    requires Fits(p) && n < |p.queue.turns|
    ensures Fits(p.(queue := Settle(p.queue, n)))
  {
    var p' := p.(queue := Settle(p.queue, n));
    SettleTouchesNoPhase(p.queue, n);
    forall m | 0 <= m < |p'.stages| ensures StageFits(p', m) {
      assert StageFits(p, m);
    }
    forall e | 0 <= e < |p'.entries| ensures EntryFits(p', e) {
      assert EntryFits(p, e);
    }
  }

  lemma ResolvedKeepsInv(p: Process, n: nat)
    requires Inv(p) && Possible(p, TailResolved(n))
    ensures Inv(After(p, TailResolved(n)))
  {
    QueueStep(p, TailResolved(n));
    ResolvedFits(p, n);
    SessionsKept(p, After(p, TailResolved(n)));
  }

  lemma TickKeepsInv(p: Process, ms: nat)
    requires Inv(p)
    ensures Inv(After(p, Tick(ms)))
  {
    var p' := After(p, Tick(ms));
    assert forall m | 0 <= m < |p.stages| :: StageFits(p, m) ==> StageFits(p', m);
    assert forall e | 0 <= e < |p.entries| :: EntryFits(p, e) ==> EntryFits(p', e);
    SessionsKept(p, p');
  }

  /** Each step moves the queue by a step of its own, or leaves it alone. */
  lemma QueueStep(p: Process, step: Step)
    requires Valid(p.queue) && Sized(p) && Possible(p, step)
    ensures Valid(After(p, step).queue)
  {
    match step
    case Call(profile, manual) => ArriveKeepsValid(p.queue, profile);
    case TurnGranted(n) => StepKeepsValid(p.queue, Grant(n));
    case QueueTimeout(n) => StepKeepsValid(p.queue, GiveUp(n));
    case TailResolved(n) => StepKeepsValid(p.queue, SettleTail(n));
    case LeaseGranted(n, _, _, _) => StepKeepsValid(p.queue, FreeTurn(n));
    case LeaseRefused(n) => StepKeepsValid(p.queue, FreeTurn(n));
    case TimerFired(e) => StepKeepsValid(p.queue, FreeTurn(p.entries[e].turn));
    case ReleaseEnded(r, _) =>
      if p.releases[r].entry.Some? {
        StepKeepsValid(p.queue, FreeTurn(p.entries[p.releases[r].entry.value].turn));
      }
    case _ =>
  }

  /** Giving back a turn touches that turn alone, and ends it. */
  lemma FreeTouchesOne(q: Queue, n: nat)
    requires n < |q.turns|
    ensures |Free(q, n).turns| == |q.turns| && Free(q, n).turns[n].profile == q.turns[n].profile
    ensures forall i | 0 <= i < |q.turns| && i != n :: Free(q, n).turns[i] == q.turns[i]
    ensures q.turns[n].phase.Granted? ==> Free(q, n).turns[n].phase.Freed?
    ensures Over(q.turns[n]) ==> Free(q, n).turns[n] == q.turns[n]
  {
  }

  lemma GrantedFits(p: Process, n: nat, manual: bool, id: string, expires: int)
    requires Inv(p) && Possible(p, LeaseGranted(n, manual, id, expires))
    ensures Fits(Granted(p, n, manual, id, expires))
  {
    var p' := Granted(p, n, manual, id, expires);
    FreeTouchesOne(p.queue, n);
    assert StageFits(p, n);
    forall m | 0 <= m < |p'.stages| ensures StageFits(p', m) {
      assert StageFits(p, m);
    }
    forall e | 0 <= e < |p'.entries| ensures EntryFits(p', e) {
      assert e < |p.entries| ==> EntryFits(p, e);
    }
  }

  lemma GrantedKeepsManual(p: Process, n: nat, manual: bool, id: string, expires: int)
    requires Inv(p) && Possible(p, LeaseGranted(n, manual, id, expires))
    ensures ManualFits(Granted(p, n, manual, id, expires))
  {
    var p' := Granted(p, n, manual, id, expires);
    forall profile | profile in p'.manualUntil ensures exists e :: Session(p', e, profile) {
      if manual && profile == p.queue.turns[n].profile {
        assert Session(p', |p.entries|, profile);
      } else {
        var e :| Session(p, e, profile);
        assert Session(p', e, profile);
      }
    }
  }

  lemma RefusedKeepsInv(p: Process, n: nat)
    requires Inv(p) && Possible(p, LeaseRefused(n))
    ensures Inv(GivenBack(p, n))
  {
    var p' := GivenBack(p, n);
    QueueStep(p, LeaseRefused(n));
    FreeTouchesOne(p.queue, n);
    assert StageFits(p, n);
    forall m | 0 <= m < |p'.stages| ensures StageFits(p', m) {
      assert StageFits(p, m);
    }
    forall e | 0 <= e < |p'.entries| ensures EntryFits(p', e) {
      assert EntryFits(p, e);
    }
    forall profile | profile in p'.manualUntil ensures exists e :: Session(p', e, profile) {
      var e :| Session(p, e, profile);
      assert Session(p', e, profile);
    }
  }

  lemma EntryFreedFits(p: Process, e: nat)
    requires Fits(p) && e < |p.entries|
    ensures Fits(EntryFreed(p, e))
  {
    var p' := EntryFreed(p, e);
    var n := p.entries[e].turn;
    FreeTouchesOne(p.queue, n);
    assert EntryFits(p, e) && StageFits(p, n);
    forall m | 0 <= m < |p'.stages| ensures StageFits(p', m) {
      assert StageFits(p, m);
    }
    forall x | 0 <= x < |p'.entries| ensures EntryFits(p', x) {
      assert EntryFits(p, x);
    }
  }

  /** Letting go of entry `e` under its own id leaves nothing behind that names it. */
  lemma DroppedHeldFits(p: Process, p': Process, e: nat)
    requires Inv(p) && e < |p.entries| && Sized(p')
    requires p'.entries == p.entries[e := p.entries[e].(timer := None)]
    requires p'.held == DropHeld(p.held, e, p.entries[e].id)
    requires |p'.releases| == |p.releases| && forall r | 0 <= r < |p.releases| ::
      p'.releases[r].entry == p.releases[r].entry && p'.releases[r].id == p.releases[r].id
    ensures HeldFits(p')
  {
    forall id | id in p'.held ensures p'.entries[p'.held[id]].id == id && p'.entries[p'.held[id]].timer.Some? {
      assert id in p.held && p'.held[id] == p.held[id];
    }
  }

  lemma FiredKeepsInv(p: Process, e: nat)
    requires Inv(p) && Possible(p, TimerFired(e))
    ensures Inv(Fired(p, e))
  {
    var p' := Fired(p, e);
    QueueStep(p, TimerFired(e));
    EntryFreedFits(p, e);
    assert forall n | 0 <= n < |p'.stages| :: StageFits(EntryFreed(p, e), n) ==> StageFits(p', n);
    assert forall x | 0 <= x < |p'.entries| :: EntryFits(EntryFreed(p, e), x) ==> EntryFits(p', x);
    DroppedHeldFits(p, p', e);
    forall profile | profile in p'.manualUntil ensures exists x :: Session(p', x, profile) {
      var x :| Session(p, x, profile);
      assert x != e;
      assert Session(p', x, profile);
    }
  }

  lemma RearmedKeepsInv(p: Process, id: string, expires: int)
    requires Inv(p) && expires > p.now
    ensures Inv(Rearmed(p, id, expires))
  {
    var p' := Rearmed(p, id, expires);
    forall n | 0 <= n < |p'.stages| ensures StageFits(p', n) {
      assert StageFits(p, n);
    }
    forall e | 0 <= e < |p'.entries| ensures EntryFits(p', e) {
      assert EntryFits(p, e);
    }
    forall profile | profile in p'.manualUntil ensures exists e :: Session(p', e, profile) {
      if id in p.held && p.entries[p.held[id]].manual && p.entries[p.held[id]].profile == profile {
        assert Session(p', p.held[id], profile);
      } else {
        var e :| Session(p, e, profile);
        assert Session(p', e, profile);
      }
    }
  }

  /** Steps that touch only the channel or the list of renewals. */
  lemma AsideKeepsInv(p: Process, p': Process)
    requires Inv(p) && Serial(p'.channel)
    requires p' == p.(channel := p'.channel, renewals := p'.renewals)
    ensures Inv(p')
  {
    forall n | 0 <= n < |p'.stages| ensures StageFits(p', n) {
      assert StageFits(p, n);
    }
    forall e | 0 <= e < |p'.entries| ensures EntryFits(p', e) {
      assert EntryFits(p, e);
    }
    SessionsKept(p, p');
  }

  lemma RenewalDoneKeepsInv(p: Process, k: nat, expires: Option<int>)
    requires Inv(p) && Possible(p, RenewalEnded(k, expires))
    ensures Inv(RenewalDone(p, k, expires))
  {
    var over := p.(renewals := p.renewals[k := p.renewals[k].(over := true)]);
    AsideKeepsInv(p, over);
    if expires.Some? {
      RearmedKeepsInv(over, p.renewals[k].id, expires.value);
    }
  }

  lemma ReleaseFreedFits(p: Process, r: nat, released: bool)
    requires Inv(p) && r < |p.releases| && p.releases[r].entry.Some?
    requires released || !p.entries[p.releases[r].entry.value].manual
    ensures Fits(ReleaseDone(p, r, released)) && HeldFits(ReleaseDone(p, r, released))
  {
    var p' := ReleaseDone(p, r, released);
    var e := p.releases[r].entry.value;
    var over := p.(releases := p.releases[r := p.releases[r].(over := true)]);
    assert forall n | 0 <= n < |p.stages| :: StageFits(p, n) ==> StageFits(over, n);
    assert forall x | 0 <= x < |p.entries| :: EntryFits(p, x) ==> EntryFits(over, x);
    EntryFreedFits(over, e);
    assert forall n | 0 <= n < |p'.stages| :: StageFits(EntryFreed(over, e), n) ==> StageFits(p', n);
    assert forall x | 0 <= x < |p'.entries| :: EntryFits(EntryFreed(over, e), x) ==> EntryFits(p', x);
    DroppedHeldFits(p, p', e);
  }

  lemma ReleaseDoneKeepsInv(p: Process, r: nat, released: bool)
    requires Inv(p) && Possible(p, ReleaseEnded(r, released))
    ensures Inv(ReleaseDone(p, r, released))
  {
    var p' := ReleaseDone(p, r, released);
    QueueStep(p, ReleaseEnded(r, released));
    if p.releases[r].entry.Some? && (released || !p.entries[p.releases[r].entry.value].manual) {
      ReleaseFreedFits(p, r, released);
    } else {
      NothingFreedFits(p, r);
    }
    ReleaseKeepsSessions(p, r, released);
  }

  lemma NothingFreedFits(p: Process, r: nat)
    requires Fits(p) && HeldFits(p) && r < |p.releases|
    ensures Fits(p.(releases := p.releases[r := p.releases[r].(over := true)]))
    ensures HeldFits(p.(releases := p.releases[r := p.releases[r].(over := true)]))
  {
    var p' := p.(releases := p.releases[r := p.releases[r].(over := true)]);
    assert forall n | 0 <= n < |p.stages| :: StageFits(p, n) ==> StageFits(p', n);
    assert forall x | 0 <= x < |p.entries| :: EntryFits(p, x) ==> EntryFits(p', x);
  }

  lemma ReleaseKeepsSessions(p: Process, r: nat, released: bool)
    requires Sized(p) && ManualFits(p) && r < |p.releases|
    ensures ManualFits(ReleaseDone(p, r, released))
  {
    var p' := ReleaseDone(p, r, released);
    forall profile | profile in p'.manualUntil ensures exists x :: Session(p', x, profile) {
      var x :| Session(p, x, profile);
      assert Session(p', x, profile);
    }
  }

  lemma ReleaseBegunKeepsInv(p: Process, id: string)
    requires Inv(p)
    ensures Inv(After(p, ReleaseBegun(id)))
  {
    var p' := After(p, ReleaseBegun(id));
    assert forall n | 0 <= n < |p.stages| :: StageFits(p, n) ==> StageFits(p', n);
    assert forall x | 0 <= x < |p.entries| :: EntryFits(p, x) ==> EntryFits(p', x);
    forall profile | profile in p'.manualUntil ensures exists x :: Session(p', x, profile) {
      var x :| Session(p, x, profile);
      assert Session(p', x, profile);
    }
  }

  lemma StepKeepsInv(p: Process, step: Step)
    requires Inv(p) && Possible(p, step)
    ensures Inv(After(p, step))
  {
    match step
    case LeaseGranted(n, manual, id, expires) =>
      QueueStep(p, step);
      GrantedFits(p, n, manual, id, expires);
      GrantedKeepsManual(p, n, manual, id, expires);
    case LeaseRefused(n) => RefusedKeepsInv(p, n);
    case TimerFired(e) => FiredKeepsInv(p, e);
    case RenewalBegun(id) => AsideKeepsInv(p, After(p, step));
    case RenewalEnded(k, expires) => RenewalDoneKeepsInv(p, k, expires);
    case RequestSent(caller) =>
      SubmitKeepsSerial(p.channel, caller);
      AsideKeepsInv(p, After(p, step));
    case RequestStarted(k) =>
      StartKeepsSerial(p.channel, k);
      AsideKeepsInv(p, After(p, step));
    case RequestEnded(k) =>
      EndKeepsSerial(p.channel, k);
      AsideKeepsInv(p, After(p, step));
    case ReleaseBegun(id) => ReleaseBegunKeepsInv(p, id);
    case ReleaseEnded(r, released) => ReleaseDoneKeepsInv(p, r, released);
    case Call(profile, manual) => CallKeepsInv(p, profile, manual);
    case TurnGranted(n) => DecidedKeepsInv(p, n, true);
    case QueueTimeout(n) => DecidedKeepsInv(p, n, false);
    case TailResolved(n) => ResolvedKeepsInv(p, n);
    case Tick(ms) => TickKeepsInv(p, ms);
  }

  // ------------------------------------------------------------ every run

  ghost predicate StepAt(states: seq<Process>, steps: seq<Step>, i: nat) {
    i < |steps| && i + 1 < |states| && Goes(states[i], steps[i], states[i + 1])
  }

  ghost predicate Goes(p: Process, step: Step, p': Process) {
    Sized(p) && Possible(p, step) && p' == After(p, step)
  }

  /** The states of a process since it started, with the steps between them. */
  ghost predicate IsRun(states: seq<Process>, steps: seq<Step>) {
    && |states| == |steps| + 1 && Fresh(states[0])
    && forall i | 0 <= i < |steps| :: StepAt(states, steps, i)
  }

  predicate Fresh(p: Process) {
    p == Process(Queue([], map[]), [], [], map[], map[], [], [], [], p.now)
  }

  lemma {:induction false} RunKeepsInv(states: seq<Process>, steps: seq<Step>, k: nat)
    requires IsRun(states, steps) && k < |states|
    ensures Inv(states[k])
  {
    if k > 0 {
      RunKeepsInv(states, steps, k - 1);
      assert StepAt(states, steps, k - 1);
      StepKeepsInv(states[k - 1], steps[k - 1]);
    }
  }

  /** The process never has two lifecycle requests under way, whichever acquires, renewals and releases sent them. */
  lemma OneRequestAtATime(states: seq<Process>, steps: seq<Step>, k: nat, i: nat, j: nat)
    requires IsRun(states, steps) && k < |states| && i < |states[k].channel| && j < |states[k].channel|
    requires states[k].channel[i].progress.Running? && states[k].channel[j].progress.Running?
    ensures i == j
  {
    RunKeepsInv(states, steps, k);
  }

  /** A request that has started stays so, and nobody takes its place. */
  lemma ChannelStepGrows(p: Process, step: Step, i: nat)
    requires Sized(p) && Possible(p, step) && i < |p.channel| && !p.channel[i].progress.Queued?
    ensures i < |After(p, step).channel| && !After(p, step).channel[i].progress.Queued?
    ensures p.channel[i].progress.Done? ==> After(p, step).channel[i] == p.channel[i]
  {
  }

  lemma {:induction false} StartedStays(states: seq<Process>, steps: seq<Step>, a: nat, b: nat, i: nat)
    requires IsRun(states, steps) && a <= b < |states| && i < |states[a].channel|
    requires !states[a].channel[i].progress.Queued?
    ensures i < |states[b].channel| && !states[b].channel[i].progress.Queued?
    decreases b - a
  {
    if a < b {
      StartedStays(states, steps, a, b - 1, i);
      assert StepAt(states, steps, b - 1);
      ChannelStepGrows(states[b - 1], steps[b - 1], i);
    }
  }

  /** Requests start in the order in which they were sent, each once, and each after the one before has ended. */
  lemma RequestsInOrder(states: seq<Process>, steps: seq<Step>, a: nat, b: nat)
    requires IsRun(states, steps) && a < b < |steps| && steps[a].RequestStarted? && steps[b].RequestStarted?
    ensures steps[a].request < steps[b].request
    ensures steps[a].request < |states[b].channel| && states[b].channel[steps[a].request].progress.Done?
  {
    var i, j := steps[a].request, steps[b].request;
    RunKeepsInv(states, steps, a);
    RunKeepsInv(states, steps, b);
    assert StepAt(states, steps, a) && StepAt(states, steps, b);
    if j <= i {
      EarlierHaveStarted(states[a].channel, i, j);
      StartedStays(states, steps, a + 1, b, j);
    }
    StartedStays(states, steps, a + 1, b, i);
    AllBeforeDone(states[b].channel, j, i);
  }

  lemma EarlierHaveStarted(c: Channel, i: nat, j: nat)
    requires Serial(c) && CanStart(c, i) && j <= i
    ensures !Moved(c, i, Running)[j].progress.Queued?
  {
    assert j < i - 1 ==> c[j].progress.Done?;
  }

  lemma AllBeforeDone(c: Channel, j: nat, i: nat)
    requires Serial(c) && CanStart(c, j) && i < j
    ensures c[i].progress.Done?
  {
    assert i < j - 1 ==> c[i].progress.Done?;
  }

  predicate Open(p: Process, e: nat) {
    e < |p.entries| && !p.entries[e].manual && p.entries[e].timer.Some?
  }

  /** Per profile this process never has two open automatic leases, nor one together with another call that is
      asking the owner for a lease. */
  lemma OneLeasePerProfile(states: seq<Process>, steps: seq<Step>, k: nat, e: nat)
    requires IsRun(states, steps) && k < |states| && Open(states[k], e)
    ensures |states[k].stages| == |states[k].queue.turns|
    ensures forall x: nat | Open(states[k], x) && states[k].entries[x].profile == states[k].entries[e].profile :: x == e
    ensures forall n | 0 <= n < |states[k].stages| && states[k].stages[n].Posting? ::
      states[k].queue.turns[n].profile != states[k].entries[e].profile
  {
    var p := states[k];
    RunKeepsInv(states, steps, k);
    assert EntryFits(p, e) && StageFits(p, p.entries[e].turn);
    forall x: nat | Open(p, x) && p.entries[x].profile == p.entries[e].profile ensures x == e {
      assert EntryFits(p, x) && StageFits(p, p.entries[x].turn);
      MutualExclusion(p.queue, p.entries[e].turn, p.entries[x].turn);
    }
    forall n | 0 <= n < |p.stages| && p.stages[n].Posting? && p.queue.turns[n].profile == p.entries[e].profile
      ensures false
    {
      assert StageFits(p, n);
      MutualExclusion(p.queue, p.entries[e].turn, n);
    }
  }

  /** A granted turn always has an owner that gives it back: a call still talking to the owner, or an open lease
      with an armed timer. */
  lemma GrantedHasAnOwner(states: seq<Process>, steps: seq<Step>, k: nat, n: nat)
    requires IsRun(states, steps) && k < |states| && n < |states[k].queue.turns|
    requires states[k].queue.turns[n].phase.Granted?
    ensures n < |states[k].stages|
    ensures states[k].stages[n].Posting? || (states[k].stages[n].Holding? && Open(states[k], states[k].stages[n].entry)
                                             && states[k].entries[states[k].stages[n].entry].turn == n)
  {
    RunKeepsInv(states, steps, k);
    assert StageFits(states[k], n);
  }

  /** What a step does to the queue. */
  lemma QueueMoves(p: Process, step: Step)
    requires Sized(p) && Possible(p, step)
    ensures var q := After(p, step).queue; (
      || q == p.queue
      || (step.Call? && q == Arrive(p.queue, step.profile))
      || (step.TurnGranted? && q == Phased(p.queue, step.turn, Phase.Granted))
      || (step.QueueTimeout? && q == Phased(p.queue, step.turn, TimedOut))
      || (step.TailResolved? && q == Settle(p.queue, step.turn))
      || exists n: nat :: n < |p.queue.turns| && q == Free(p.queue, n))
  {
    match step
    case LeaseGranted(n, _, _, _) => assert After(p, step).queue == p.queue || After(p, step).queue == Free(p.queue, n);
    case LeaseRefused(n) => assert After(p, step).queue == Free(p.queue, n);
    case TimerFired(e) =>
      assert After(p, step).queue == p.queue || After(p, step).queue == Free(p.queue, p.entries[e].turn);
    case ReleaseEnded(r, _) =>
      if p.releases[r].entry.Some? {
        var e := p.releases[r].entry.value;
        assert After(p, step).queue == p.queue || After(p, step).queue == Free(p.queue, p.entries[e].turn);
      }
    case _ =>
  }

  lemma NeverWaitsAgainStep(p: Process, step: Step, n: nat)
    requires Sized(p) && Possible(p, step) && n < |p.queue.turns| && !p.queue.turns[n].phase.Waiting?
    ensures n < |After(p, step).queue.turns| && !After(p, step).queue.turns[n].phase.Waiting?
  {
    QueueMoves(p, step);
  }

  lemma {:induction false} NeverWaitsAgain(states: seq<Process>, steps: seq<Step>, a: nat, b: nat, n: nat)
    requires IsRun(states, steps) && a <= b < |states| && n < |states[a].queue.turns|
    requires !states[a].queue.turns[n].phase.Waiting?
    ensures n < |states[b].queue.turns| && !states[b].queue.turns[n].phase.Waiting?
    decreases b - a
  {
    if a < b {
      NeverWaitsAgain(states, steps, a, b - 1, n);
      RunKeepsInv(states, steps, b - 1);
      assert StepAt(states, steps, b - 1);
      NeverWaitsAgainStep(states[b - 1], steps[b - 1], n);
    }
  }

  /** Over a whole run the turns of a profile are granted in order of arrival, each at most once: waiters that gave
      up, manual sessions, expired timers and failed closes change nothing about it. */
  lemma LeasesInOrder(states: seq<Process>, steps: seq<Step>, a: nat, b: nat)
    requires IsRun(states, steps) && a < b < |steps| && steps[a].TurnGranted? && steps[b].TurnGranted?
    requires steps[a].turn < |states[a].queue.turns|
    requires steps[b].turn < |states[a].queue.turns| ==>
               states[a].queue.turns[steps[b].turn].profile == states[a].queue.turns[steps[a].turn].profile
    ensures steps[a].turn < steps[b].turn
  {
    var i, j := steps[a].turn, steps[b].turn;
    RunKeepsInv(states, steps, a);
    assert StepAt(states, steps, a) && StepAt(states, steps, b);
    if j < i {
      GrantedMeansFirst(states[a].queue, i, j);
      NeverWaitsAgain(states, steps, a, b, j);
    } else if j == i {
      NeverWaitsAgain(states, steps, a + 1, b, i);
    }
  }

  // ------------------------------------------------------------ when an automatic lease gives its turn back

  predicate Closes(p: Process, step: Step, e: nat) {
    || (step.ReleaseEnded? && step.release < |p.releases| && p.releases[step.release].entry == Some(e))
    || (step == TimerFired(e) && Open(p, e) && p.entries[e].timer.value.fireAt <= p.now)
  }

  /** No step changes what an entry is. */
  predicate SameEntry(a: Entry, b: Entry) {
    a.(timer := None) == b.(timer := None)
  }

  lemma EntryAfterRelease(p: Process, r: nat, released: bool, e: nat)
    requires Sized(p) && r < |p.releases| && e < |p.entries|
    ensures
      var p' := ReleaseDone(p, r, released);
      && e < |p'.entries| && SameEntry(p'.entries[e], p.entries[e])
      && p'.entries[e].timer
         == if p.releases[r].entry == Some(e) && (released || !p.entries[e].manual) then None else p.entries[e].timer
  {
  }

  lemma EntryAfterRenewal(p: Process, k: nat, until: Option<int>, e: nat)
    requires Sized(p) && k < |p.renewals| && e < |p.entries|
    ensures
      var p' := RenewalDone(p, k, until);
      && e < |p'.entries| && SameEntry(p'.entries[e], p.entries[e])
      && (p'.entries[e].timer == p.entries[e].timer
          || (p.renewals[k].id in p.held && p.held[p.renewals[k].id] == e && p'.entries[e].timer.Some?))
  {
  }

  /** What a step does to an entry: only its timer and its release close it, and nothing opens it again. */
  lemma EntryAfter(p: Process, step: Step, e: nat)
    requires Sized(p) && HeldFits(p) && Possible(p, step) && e < |p.entries|
    ensures
      var p' := After(p, step);
      && e < |p'.entries| && SameEntry(p'.entries[e], p.entries[e])
      && (p.entries[e].timer.None? ==> p'.entries[e].timer.None?)
      && (Open(p, e) ==> (p'.entries[e].timer.None? <==> Closes(p, step, e)))
  {
    match step
    case ReleaseEnded(r, released) => EntryAfterRelease(p, r, released, e);
    case RenewalEnded(k, until) => EntryAfterRenewal(p, k, until, e);
    case _ =>
  }

  lemma ClosedOnlyBy(p: Process, step: Step, e: nat)
    requires Inv(p) && Possible(p, step) && Open(p, e)
    ensures Open(After(p, step), e) <==> !Closes(p, step, e)
    ensures e < |After(p, step).entries| && After(p, step).entries[e].turn == p.entries[e].turn
    ensures !After(p, step).entries[e].manual
  {
    EntryAfter(p, step, e);
  }

  /** Once closed, an entry is never opened again. */
  lemma ClosedStays(p: Process, step: Step, e: nat)
    requires Inv(p) && Possible(p, step) && e < |p.entries| && p.entries[e].timer.None?
    ensures e < |After(p, step).entries| && After(p, step).entries[e].timer.None?
    ensures After(p, step).entries[e].turn == p.entries[e].turn
    ensures After(p, step).entries[e].manual == p.entries[e].manual
  {
    EntryAfter(p, step, e);
  }

  ghost predicate ClosedBetween(states: seq<Process>, steps: seq<Step>, a: nat, b: nat, e: nat)
    requires |states| == |steps| + 1 && a <= b < |states|
  {
    exists k :: a <= k < b && Closes(states[k], steps[k], e)
  }

  lemma ClosedExtends(states: seq<Process>, steps: seq<Step>, a: nat, b: nat, e: nat)
    requires |states| == |steps| + 1 && a <= b < |steps|
    ensures ClosedBetween(states, steps, a, b + 1, e) <==>
      ClosedBetween(states, steps, a, b, e) || Closes(states[b], steps[b], e)
  {
  }

  lemma OpenHasTurn(p: Process, e: nat)
    requires Inv(p) && Open(p, e)
    ensures IsTurnOf(p, p.entries[e].turn, e) && !p.queue.turns[p.entries[e].turn].phase.Freed?
  {
    assert EntryFits(p, e) && StageFits(p, p.entries[e].turn);
  }

  lemma KeptByRunStep(states: seq<Process>, steps: seq<Step>, k: nat, e: nat, n: nat)
    requires IsRun(states, steps) && k < |steps| && IsTurnOf(states[k], n, e)
    requires Open(states[k], e) <==> !states[k].queue.turns[n].phase.Freed?
    ensures IsTurnOf(states[k + 1], n, e)
    ensures Open(states[k + 1], e) <==> Open(states[k], e) && !Closes(states[k], steps[k], e)
    ensures states[k + 1].queue.turns[n].phase.Freed? <==>
      states[k].queue.turns[n].phase.Freed? || Closes(states[k], steps[k], e)
  {
    RunKeepsInv(states, steps, k);
    assert StepAt(states, steps, k);
    KeptByStep(states[k], steps[k], e, n);
  }

  /** The state of turn `n` at `b`, told from what happened to its lease since `a`. */
  ghost predicate KeptExactly(states: seq<Process>, steps: seq<Step>, a: nat, b: nat, e: nat, n: nat)
    requires |states| == |steps| + 1 && a <= b < |states|
  {
    && IsTurnOf(states[b], n, e)
    && (states[b].queue.turns[n].phase.Freed? <==> ClosedBetween(states, steps, a, b, e))
    && (Open(states[b], e) <==> !ClosedBetween(states, steps, a, b, e))
  }

  /** From one moment of a run at which an automatic lease is open to any later one: its turn has been freed exactly
      when, in between, an exchange that was closing this lease has ended or its timer has fired. */
  lemma {:induction false} TurnIsKeptUntilClosed(states: seq<Process>, steps: seq<Step>, a: nat, b: nat, e: nat)
    requires IsRun(states, steps) && a <= b < |states| && Open(states[a], e)
    ensures KeptExactly(states, steps, a, b, e, states[a].entries[e].turn)
    decreases b - a
  {
    if a < b {
      TurnIsKeptUntilClosed(states, steps, a, b - 1, e);
      KeptByRunStep(states, steps, b - 1, e, states[a].entries[e].turn);
      ClosedExtends(states, steps, a, b - 1, e);
    } else {
      RunKeepsInv(states, steps, a);
      OpenHasTurn(states[a], e);
    }
  }

  predicate IsTurnOf(p: Process, n: nat, e: nat) {
    e < |p.entries| && p.entries[e].turn == n && !p.entries[e].manual && n < |p.queue.turns|
  }

  lemma KeptByStep(p: Process, step: Step, e: nat, n: nat)
    requires Inv(p) && Possible(p, step) && IsTurnOf(p, n, e)
    requires Open(p, e) <==> !p.queue.turns[n].phase.Freed?
    ensures IsTurnOf(After(p, step), n, e)
    ensures Open(After(p, step), e) <==> Open(p, e) && !Closes(p, step, e)
    ensures After(p, step).queue.turns[n].phase.Freed? <==> p.queue.turns[n].phase.Freed? || Closes(p, step, e)
  {
    if Open(p, e) {
      ClosedOnlyBy(p, step, e);
      FreedWhenClosed(p, step, e);
    } else {
      ClosedStays(p, step, e);
      FreedStaysFreed(p, step, n);
    }
  }

  lemma FreedWhenClosed(p: Process, step: Step, e: nat)
    requires Inv(p) && Possible(p, step) && Open(p, e)
    ensures p.entries[e].turn < |After(p, step).queue.turns|
    ensures After(p, step).queue.turns[p.entries[e].turn].phase.Freed? <==> Closes(p, step, e)
  {
    var n := p.entries[e].turn;
    assert EntryFits(p, e) && StageFits(p, n);
    StepKeepsInv(p, step);
    ClosedOnlyBy(p, step, e);
    var p' := After(p, step);
    if Closes(p, step, e) {
      FreeTouchesOne(p.queue, n);
    } else {
      assert EntryFits(p', e) && StageFits(p', n);
    }
  }

  lemma FreedStaysFreed(p: Process, step: Step, n: nat)
    requires Sized(p) && Possible(p, step) && n < |p.queue.turns| && p.queue.turns[n].phase.Freed?
    ensures n < |After(p, step).queue.turns| && After(p, step).queue.turns[n].phase.Freed?
  {
    QueueMoves(p, step);
  }

  /** When the timer closes a lease its local expiry has passed, by a second, unless the expiry lay further ahead
      than the longest delay a timer takes when it was armed. */
  lemma TimerWaitsForExpiry(states: seq<Process>, steps: seq<Step>, k: nat, e: nat)
    requires IsRun(states, steps) && k < |steps| && steps[k] == TimerFired(e)
    ensures e < |states[k].entries| && states[k].entries[e].timer.Some?
    ensures var t := states[k].entries[e].timer.value;
      && (t.expires - t.setAt <= MAX_TIMER_MS ==> states[k].now >= t.expires)
      && (t.expires - t.setAt + 1000 <= MAX_TIMER_MS ==> states[k].now >= t.expires + 1000)
  {
    RunKeepsInv(states, steps, k);
    assert StepAt(states, steps, k) && EntryFits(states[k], e);
  }

  /** The timer is set for the expiry or later exactly when the expiry is within the cap. */
  lemma ArmedAfterExpiryExactly(now: int, expires: int)
    requires expires > now
    ensures Armed(now, expires).fireAt >= expires <==> expires - now <= MAX_TIMER_MS
    ensures Armed(now, expires).fireAt <= expires + 1000
  {
  }

  function Started(start: int, turns: seq<Turn>, stages: seq<Stage>, channel: Channel): Process {
    Process(Queue(turns, if turns == [] then map[] else map["profile" := 0]), stages, [], map[], map[], [], [], channel,
            start)
  }

  const WAITS: Turn := Turn("profile", None, Waiting, false)
  const HOLDS: Turn := Turn("profile", None, Phase.Granted, false)

  function Asking(start: int, progress: Progress): Process {
    Started(start, [HOLDS], [Posting], [Exchange(ForTurn(0), progress)])
  }

  function Leased(start: int, expires: int, now: int): Process {
    Started(start, [HOLDS], [Holding(0)], [Exchange(ForTurn(0), Done)]).(
      entries := [Entry("lease", "profile", false, 0, Some(Timer(start, expires, start + MAX_TIMER_MS)))],
      held := map["lease" := 0], now := now)
  }

  function Lost(start: int, expires: int): Process {
    Process(Queue([Turn("profile", None, Freed, false)], map[]), [Ended], [Entry("lease", "profile", false, 0, None)],
            map[], map[], [], [], [Exchange(ForTurn(0), Done)], start + MAX_TIMER_MS)
  }

  lemma FarExpiryStarts(start: int)
    requires start >= 0
    ensures Goes(Started(start, [], [], []), Call("profile", false), Started(start, [WAITS], [InQueue], []))
    ensures Goes(Started(start, [WAITS], [InQueue], []), TurnGranted(0), Started(start, [HOLDS], [Posting], []))
  {
  }

  lemma FarExpiryAsks(start: int)
    ensures Goes(Started(start, [HOLDS], [Posting], []), RequestSent(ForTurn(0)), Asking(start, Queued))
    ensures Goes(Asking(start, Queued), RequestStarted(0), Asking(start, Running))
    ensures Goes(Asking(start, Running), RequestEnded(0), Asking(start, Done))
  {
  }

  lemma FarExpiryLeases(start: int, expires: int)
    requires expires - start > MAX_TIMER_MS
    ensures Goes(Asking(start, Done), LeaseGranted(0, false, "lease", expires), Leased(start, expires, start))
    ensures Goes(Leased(start, expires, start), Tick(MAX_TIMER_MS), Leased(start, expires, start + MAX_TIMER_MS))
  {
    assert Asking(start, Done).channel[0].caller == ForTurn(0);
  }

  lemma FarExpiryFires(start: int, expires: int)
    requires expires - start > MAX_TIMER_MS
    ensures Goes(Leased(start, expires, start + MAX_TIMER_MS), TimerFired(0), Lost(start, expires))
  {
  }

  function FarSteps(expires: int): seq<Step> {
    [Call("profile", false), TurnGranted(0), RequestSent(ForTurn(0)), RequestStarted(0), RequestEnded(0),
     LeaseGranted(0, false, "lease", expires), Tick(MAX_TIMER_MS), TimerFired(0)]
  }

  function FarStates(start: int, expires: int): seq<Process> {
    [Started(start, [], [], []), Started(start, [WAITS], [InQueue], []), Started(start, [HOLDS], [Posting], []),
     Asking(start, Queued), Asking(start, Running), Asking(start, Done), Leased(start, expires, start),
     Leased(start, expires, start + MAX_TIMER_MS), Lost(start, expires)]
  }

  lemma FarStep(start: int, expires: int, i: nat)
    requires start >= 0 && expires - start > MAX_TIMER_MS && i < 8
    ensures StepAt(FarStates(start, expires), FarSteps(expires), i)
  {
    if i < 2 {
      FarExpiryStarts(start);
    } else if i < 5 {
      FarExpiryAsks(start);
    } else if i < 7 {
      FarExpiryLeases(start, expires);
    } else {
      FarExpiryFires(start, expires);
    }
  }

  /** Beyond the cap the timer does fire early and the turn is lost while the owner still holds the lease: a run
      that shows it, for every expiry too far ahead. */
  lemma FarExpiryIsLostEarly(start: int, expires: int) returns (states: seq<Process>, steps: seq<Step>)
    requires start >= 0 && expires - start > MAX_TIMER_MS
    ensures IsRun(states, steps) && |steps| == 8 && states[0].now == start
    ensures steps[5] == LeaseGranted(0, false, "lease", expires) && steps[7] == TimerFired(0) && states[7].now < expires
    ensures |states[8].queue.turns| == 1 && states[8].queue.turns[0].phase.Freed?
  {
    states, steps := FarStates(start, expires), FarSteps(expires);
    forall i: nat | i < 8 ensures StepAt(states, steps, i) {
      FarStep(start, expires, i);
    }
    FarRuns(states, steps);
  }

  lemma FarRuns(states: seq<Process>, steps: seq<Step>)
    requires |states| == 9 && |steps| == 8 && Fresh(states[0]) && forall i: nat | i < 8 :: StepAt(states, steps, i)
    ensures IsRun(states, steps)
  {
  }

  /** Automatic reads fail at once only while a person's lease on that profile is open and not yet expired. */
  lemma BlockedOnlyBySession(states: seq<Process>, steps: seq<Step>, k: nat, profile: string)
    requires IsRun(states, steps) && k < |states| && states[k].now >= 0
    requires Called(states[k], profile, false) == states[k]
    ensures exists e: nat :: Session(states[k], e, profile) && states[k].entries[e].timer.value.expires > states[k].now
  {
    var p := states[k];
    RunKeepsInv(states, steps, k);
    assert |Called(p, profile, false).stages| == |p.stages|;
    assert profile in p.manualUntil;
    var e :| Session(p, e, profile);
  }

  // ------------------------------------------------------------ what each step does, field by field

  /** An automatic call fails at once while a person's session on the profile is remembered to last. */
  predicate IsBlocked(p: Process, profile: string, manual: bool) {
    !manual && (if profile in p.manualUntil then p.manualUntil[profile] else 0) > p.now
  }

  predicate Joins(p: Process, step: Step) {
    step.Call? && !IsBlocked(p, step.profile, step.manual)
  }

  /** A timer for the expiry: a second after it, but no later than a timer can be set to. */
  predicate ArmedFor(t: Timer, now: int, expires: int) {
    && t.setAt == now && t.expires == expires
    && (expires <= now ==> t.fireAt == now + 1000)
    && (now < expires && expires - now + 1000 <= 2_147_483_647 ==> t.fireAt == expires + 1000)
    && (expires - now + 1000 > 2_147_483_647 && now < expires ==> t.fireAt == now + 2_147_483_647)
  }

  /** The entry's timer fires, or its release is over; a person's session is only ended by a successful one. */
  predicate EndsEntry(p: Process, step: Step, e: nat)
    requires e < |p.entries|
  {
    || step == TimerFired(e)
    || (&& step.ReleaseEnded? && step.release < |p.releases| && p.releases[step.release].entry == Some(e)
        && (step.released || !p.entries[e].manual))
  }

  /** The owner has renewed the lease, and its id still means this entry. */
  predicate RenewsEntry(p: Process, step: Step, e: nat, expires: int) {
    && step.RenewalEnded? && step.until == Some(expires) && step.renewal < |p.renewals|
    && p.renewals[step.renewal].id in p.held && p.held[p.renewals[step.renewal].id] == e
  }

  /** The turn is given back: its call was refused, or got a person's lease, or its automatic lease is ended. */
  predicate GivesBack(p: Process, step: Step, n: nat) {
    || step == LeaseRefused(n)
    || (step.LeaseGranted? && step.turn == n && step.manual)
    || exists e: nat | e < |p.entries| :: EndsEntry(p, step, e) && !p.entries[e].manual && p.entries[e].turn == n
  }

  /** A person's session on the profile is remembered until then. */
  predicate SetsSession(p: Process, step: Step, profile: string, expires: int) {
    || (&& step.LeaseGranted? && step.manual && step.expires == expires && step.turn < |p.queue.turns|
        && p.queue.turns[step.turn].profile == profile)
    || exists e: nat | e < |p.entries| ::
         RenewsEntry(p, step, e, expires) && p.entries[e].manual && p.entries[e].profile == profile
  }

  /** The session of a person on the profile is forgotten: it was closed, or its timer fired and no later expiry is
      remembered. */
  predicate ClearsSession(p: Process, step: Step, profile: string) {
    exists e: nat | e < |p.entries| ::
      && EndsEntry(p, step, e) && p.entries[e].manual && p.entries[e].profile == profile
      && (step.TimerFired? && p.entries[e].timer.Some? && profile in p.manualUntil ==>
            p.manualUntil[profile] <= p.entries[e].timer.value.expires)
  }

  predicate SameLease(a: Entry, b: Entry) {
    a.id == b.id && a.profile == b.profile && a.manual == b.manual && a.turn == b.turn
  }

  ghost predicate EntriesAsTold(p: Process, step: Step, p': Process) {
    && |p'.entries| == |p.entries| + (if step.LeaseGranted? then 1 else 0)
    && (step.LeaseGranted? && step.turn < |p.queue.turns| ==>
          var e := p'.entries[|p.entries|];
          && e.id == step.id && e.profile == p.queue.turns[step.turn].profile && e.manual == step.manual
          && e.turn == step.turn && e.timer.Some? && ArmedFor(e.timer.value, p.now, step.expires))
    && forall e: nat | e < |p.entries| :: EntryAsTold(p, step, p', e)
  }

  ghost predicate EntryAsTold(p: Process, step: Step, p': Process, e: nat)
    requires e < |p.entries| <= |p'.entries|
  {
    && SameLease(p'.entries[e], p.entries[e])
    && (EndsEntry(p, step, e) ==> p'.entries[e].timer == None)
    && (forall expires | RenewsEntry(p, step, e, expires) ::
          p'.entries[e].timer.Some? && ArmedFor(p'.entries[e].timer.value, p.now, expires))
    && (!EndsEntry(p, step, e) && (forall expires :: !RenewsEntry(p, step, e, expires)) ==>
          p'.entries[e].timer == p.entries[e].timer)
  }

  /** An id means the entry it was granted for last, until that is ended. */
  ghost predicate HeldAsTold(p: Process, step: Step, p': Process)
    requires forall id | id in p.held :: p.held[id] < |p.entries|
  {
    && (step.LeaseGranted? ==> p'.held == p.held[step.id := |p.entries|])
    && (!step.LeaseGranted? ==> forall id ::
          && (id in p'.held <==> id in p.held && !EndsEntry(p, step, p.held[id]))
          && (id in p'.held ==> p'.held[id] == p.held[id]))
  }

  ghost predicate SessionsAsTold(p: Process, step: Step, p': Process) {
    forall profile :: SessionAsTold(p, step, p', profile)
  }

  ghost predicate SessionAsTold(p: Process, step: Step, p': Process, profile: string) {
    && (forall expires | SetsSession(p, step, profile, expires) ::
          profile in p'.manualUntil && p'.manualUntil[profile] == expires)
    && (ClearsSession(p, step, profile) ==> profile !in p'.manualUntil)
    && ((forall expires :: !SetsSession(p, step, profile, expires)) && !ClearsSession(p, step, profile) ==>
          && (profile in p'.manualUntil <==> profile in p.manualUntil)
          && (profile in p'.manualUntil ==> p'.manualUntil[profile] == p.manualUntil[profile]))
  }

  predicate TurnAsTold(p: Process, step: Step, p': Process, n: nat)
    requires n < |p.queue.turns| <= |p'.queue.turns|
  {
    var t, t' := p.queue.turns[n], p'.queue.turns[n];
    && t'.profile == t.profile && t'.prev == t.prev
    && t'.tailDone == (t.tailDone || step == TailResolved(n))
    && t'.phase == (if step == TurnGranted(n) then Phase.Granted
                    else if step == QueueTimeout(n) then TimedOut
                    else if GivesBack(p, step, n) && t.phase.Granted? then Freed else t.phase)
  }

  /** A profile's queue is entered behind its last turn, and is over when that turn is: when it is given back, or, after
      a timeout, once everything before it is over. */
  predicate TailAsTold(p: Process, step: Step, p': Process, profile: string)
    requires forall x | x in p.queue.tails :: p.queue.tails[x] < |p.queue.turns|
  {
    var tails, tails' := p.queue.tails, p'.queue.tails;
    if Joins(p, step) && step.profile == profile then profile in tails' && tails'[profile] == |p.queue.turns|
    else if profile !in tails then profile !in tails'
    else
      var n := tails[profile];
      if (GivesBack(p, step, n) && p.queue.turns[n].phase.Granted?)
         || (step == TailResolved(n) && p.queue.turns[n].phase.TimedOut?)
      then profile !in tails'
      else profile in tails' && tails'[profile] == n
  }

  ghost predicate QueueAsTold(p: Process, step: Step, p': Process)
    requires forall x | x in p.queue.tails :: p.queue.tails[x] < |p.queue.turns|
  {
    && |p'.queue.turns| == |p.queue.turns| + (if Joins(p, step) then 1 else 0)
    && (forall n: nat | n < |p.queue.turns| :: TurnAsTold(p, step, p', n))
    && (forall profile :: TailAsTold(p, step, p', profile))
    && (Joins(p, step) ==>
          var t, tails := p'.queue.turns[|p.queue.turns|], p.queue.tails;
          && t.profile == step.profile && t.phase == Waiting && !t.tailDone
          && t.prev == if step.profile in tails then Some(tails[step.profile]) else None)
  }

  predicate StageAsTold(p: Process, step: Step, p': Process, n: nat)
    requires n < |p.stages| <= |p'.stages|
  {
    p'.stages[n] ==
      if step == TurnGranted(n) then Posting
      else if step == QueueTimeout(n) || GivesBack(p, step, n) then Ended
      else if step.LeaseGranted? && step.turn == n then Holding(|p.entries|)
      else p.stages[n]
  }

  ghost predicate StagesAsTold(p: Process, step: Step, p': Process) {
    && |p'.stages| == |p.stages| + (if Joins(p, step) then 1 else 0)
    && (Joins(p, step) ==> p'.stages[|p.stages|] == InQueue)
    && forall n: nat | n < |p.stages| :: StageAsTold(p, step, p', n)
  }

  predicate CallsAsTold(p: Process, step: Step, p': Process) {
    p'.now == p.now + (if step.Tick? then step.ms else 0)
    && ClosingsAsTold(p, step, p') && RequestsAsTold(p, step, p')
  }

  predicate ClosingsAsTold(p: Process, step: Step, p': Process) {
    && (if step.ReleaseBegun? then
          p'.releases == p.releases +
            [Release(if step.id in p.held then Some(p.held[step.id]) else None, step.id, false)]
        else if step.ReleaseEnded? then
          && step.release < |p.releases|
          && p'.releases == p.releases[step.release := p.releases[step.release].(over := true)]
        else p'.releases == p.releases)
    && (if step.RenewalBegun? then p'.renewals == p.renewals + [Renewal(step.id, false)]
        else if step.RenewalEnded? then
          && step.renewal < |p.renewals|
          && p'.renewals == p.renewals[step.renewal := p.renewals[step.renewal].(over := true)]
        else p'.renewals == p.renewals)
  }

  predicate RequestsAsTold(p: Process, step: Step, p': Process) {
    if step.RequestSent? then p'.channel == p.channel + [Exchange(step.caller, Queued)]
    else if step.RequestStarted? then
      && step.request < |p.channel|
      && p'.channel == p.channel[step.request := Exchange(p.channel[step.request].caller, Running)]
    else if step.RequestEnded? then
      && step.request < |p.channel|
      && p'.channel == p.channel[step.request := Exchange(p.channel[step.request].caller, Done)]
    else p'.channel == p.channel
  }

  /** What a step does to the process, told from the process before it. */
  ghost predicate StepAsTold(p: Process, step: Step, p': Process)
    requires Inv(p)
  {
    && EntriesAsTold(p, step, p') && HeldAsTold(p, step, p') && SessionsAsTold(p, step, p')
    && QueueAsTold(p, step, p') && StagesAsTold(p, step, p') && CallsAsTold(p, step, p')
  }

  lemma ArmedExactly(now: int, expires: int)
    ensures ArmedFor(Armed(now, expires), now, expires)
  {
  }

  lemma CallsAreTold(p: Process, step: Step)
    requires Inv(p) && Possible(p, step)
    ensures CallsAsTold(p, step, After(p, step))
  {
    ClosingsAreTold(p, step);
    RequestsAreTold(p, step);
  }

  lemma ClosingsAreTold(p: Process, step: Step)
    requires Inv(p) && Possible(p, step)
    ensures ClosingsAsTold(p, step, After(p, step))
  {
  }

  lemma RequestsAreTold(p: Process, step: Step)
    requires Inv(p) && Possible(p, step)
    ensures RequestsAsTold(p, step, After(p, step))
  {
  }

  lemma EntryOfRenewal(p: Process, k: nat, until: Option<int>, e: nat)
    requires Inv(p) && Possible(p, RenewalEnded(k, until)) && e < |p.entries|
    ensures |p.entries| == |After(p, RenewalEnded(k, until)).entries|
    ensures EntryAsTold(p, RenewalEnded(k, until), After(p, RenewalEnded(k, until)), e)
  {
    RenewedEntry(p, RenewalEnded(k, until), e);
    if until.Some? {
      ArmedExactly(p.now, until.value);
    }
  }

  lemma EntryOfRelease(p: Process, r: nat, released: bool, e: nat)
    requires Inv(p) && Possible(p, ReleaseEnded(r, released)) && e < |p.entries|
    ensures |p.entries| == |After(p, ReleaseEnded(r, released)).entries|
    ensures EntryAsTold(p, ReleaseEnded(r, released), After(p, ReleaseEnded(r, released)), e)
  {
    EntryAfterRelease(p, r, released, e);
  }

  lemma EntryIsTold(p: Process, step: Step, e: nat)
    requires Inv(p) && Possible(p, step) && e < |p.entries|
    ensures |p.entries| <= |After(p, step).entries| && EntryAsTold(p, step, After(p, step), e)
  {
    match step
    case RenewalEnded(k, until) => EntryOfRenewal(p, k, until, e);
    case ReleaseEnded(r, released) => EntryOfRelease(p, r, released, e);
    case _ =>
  }

  lemma RenewedEntry(p: Process, step: Step, e: nat)
    requires Inv(p) && Possible(p, step)
    ensures (exists expires :: RenewsEntry(p, step, e, expires)) <==>
      && step.RenewalEnded? && step.until.Some?
      && p.renewals[step.renewal].id in p.held && p.held[p.renewals[step.renewal].id] == e
  {
    if step.RenewalEnded? && step.until.Some?
      && p.renewals[step.renewal].id in p.held && p.held[p.renewals[step.renewal].id] == e {
      assert RenewsEntry(p, step, e, step.until.value);
    }
  }

  lemma EntriesAreTold(p: Process, step: Step)
    requires Inv(p) && Possible(p, step)
    ensures EntriesAsTold(p, step, After(p, step))
  {
    if step.LeaseGranted? {
      ArmedExactly(p.now, step.expires);
    }
    forall e: nat | e < |p.entries| ensures EntryAsTold(p, step, After(p, step), e) {
      EntryIsTold(p, step, e);
    }
  }

  lemma HeldIsTold(p: Process, step: Step)
    requires Inv(p) && Possible(p, step)
    ensures HeldAsTold(p, step, After(p, step))
  {
    if step.ReleaseEnded? {
      HeldOfRelease(p, step.release, step.released);
    }
  }

  lemma HeldOfRelease(p: Process, r: nat, released: bool)
    requires Inv(p) && Possible(p, ReleaseEnded(r, released))
    ensures HeldAsTold(p, ReleaseEnded(r, released), After(p, ReleaseEnded(r, released)))
  {
  }

  lemma RenewalSetsSession(p: Process, k: nat, until: Option<int>, profile: string)
    requires Inv(p) && Possible(p, RenewalEnded(k, until))
    ensures SessionAsTold(p, RenewalEnded(k, until), After(p, RenewalEnded(k, until)), profile)
  {
    var step := RenewalEnded(k, until);
    if until.Some? && p.renewals[k].id in p.held {
      var e := p.held[p.renewals[k].id];
      assert RenewsEntry(p, step, e, until.value);
      assert p.entries[e].manual && p.entries[e].profile == profile ==> SetsSession(p, step, profile, until.value);
    }
  }

  lemma ReleaseClearsSession(p: Process, r: nat, released: bool, profile: string)
    requires Inv(p) && Possible(p, ReleaseEnded(r, released))
    ensures SessionAsTold(p, ReleaseEnded(r, released), After(p, ReleaseEnded(r, released)), profile)
  {
    var step := ReleaseEnded(r, released);
    if p.releases[r].entry.Some? && (released || !p.entries[p.releases[r].entry.value].manual) {
      assert EndsEntry(p, step, p.releases[r].entry.value);
    }
  }

  lemma TimerClearsSession(p: Process, e: nat, profile: string)
    requires Inv(p) && Possible(p, TimerFired(e))
    ensures SessionAsTold(p, TimerFired(e), After(p, TimerFired(e)), profile)
  {
    assert EndsEntry(p, TimerFired(e), e);
  }

  lemma GrantSetsSession(p: Process, n: nat, manual: bool, id: string, expires: int, profile: string)
    requires Inv(p) && Possible(p, LeaseGranted(n, manual, id, expires))
    ensures SessionAsTold(p, LeaseGranted(n, manual, id, expires), After(p, LeaseGranted(n, manual, id, expires)),
                          profile)
  {
    var step := LeaseGranted(n, manual, id, expires);
    assert manual && p.queue.turns[n].profile == profile ==> SetsSession(p, step, profile, expires);
  }

  lemma SessionIsTold(p: Process, step: Step, profile: string)
    requires Inv(p) && Possible(p, step)
    ensures SessionAsTold(p, step, After(p, step), profile)
  {
    match step
    case LeaseGranted(n, manual, id, expires) => GrantSetsSession(p, n, manual, id, expires, profile);
    case RenewalEnded(k, until) => RenewalSetsSession(p, k, until, profile);
    case TimerFired(e) => TimerClearsSession(p, e, profile);
    case ReleaseEnded(r, released) => ReleaseClearsSession(p, r, released, profile);
    case _ => SessionStays(p, step, profile);
  }

  lemma SessionStays(p: Process, step: Step, profile: string)
    requires Inv(p) && Possible(p, step)
    requires !step.LeaseGranted? && !step.RenewalEnded? && !step.TimerFired? && !step.ReleaseEnded?
    ensures SessionAsTold(p, step, After(p, step), profile)
  {
    assert After(p, step).manualUntil == p.manualUntil;
  }

  /** The turn that a step gives back. */
  function Returned(p: Process, step: Step): Option<nat>
    requires Sized(p) && Possible(p, step)
  {
    match step
    case LeaseRefused(n) => Some(n)
    case LeaseGranted(n, manual, _, _) => if manual then Some(n) else None
    case TimerFired(e) => if p.entries[e].manual then None else Some(p.entries[e].turn)
    case ReleaseEnded(r, _) =>
      if p.releases[r].entry.None? || p.entries[p.releases[r].entry.value].manual then None
      else Some(p.entries[p.releases[r].entry.value].turn)
    case _ => None
  }

  lemma GivesBackExactly(p: Process, step: Step, n: nat)
    requires Inv(p) && Possible(p, step)
    ensures GivesBack(p, step, n) <==> Returned(p, step) == Some(n)
  {
    match step
    case TimerFired(e) => assert EndsEntry(p, step, e);
    case ReleaseEnded(r, released) =>
      if p.releases[r].entry.Some? && !p.entries[p.releases[r].entry.value].manual {
        assert EndsEntry(p, step, p.releases[r].entry.value);
      }
    case _ =>
  }

  /** What a step does to the queue and the stages, by the turn it gives back. */
  lemma ReturnsTurn(p: Process, step: Step)
    requires Inv(p) && Possible(p, step) && Returned(p, step).Some?
    ensures
      var n, p' := Returned(p, step).value, After(p, step);
      n < |p.stages| && n < |p.queue.turns| && p'.queue == Free(p.queue, n) && p'.stages == p.stages[n := Ended]
  {
  }

  lemma ReturnsNothing(p: Process, step: Step)
    requires Inv(p) && Possible(p, step) && Returned(p, step).None?
    requires !step.Call? && !step.TurnGranted? && !step.QueueTimeout? && !step.TailResolved?
    ensures After(p, step).queue == p.queue
    ensures After(p, step).stages ==
      if step.LeaseGranted? then p.stages[step.turn := Holding(|p.entries|)] else p.stages
  {
  }

  lemma TurnIsTold(p: Process, step: Step, n: nat)
    requires Inv(p) && Possible(p, step) && n < |p.queue.turns|
    ensures |p.queue.turns| <= |After(p, step).queue.turns| && TurnAsTold(p, step, After(p, step), n)
  {
    GivesBackExactly(p, step, n);
    if Returned(p, step).Some? {
      ReturnsTurn(p, step);
      FreeTouchesOne(p.queue, Returned(p, step).value);
      FreedTurn(p.queue, Returned(p, step).value);
    } else if !step.Call? && !step.TurnGranted? && !step.QueueTimeout? && !step.TailResolved? {
      ReturnsNothing(p, step);
    }
  }

  lemma FreedTurn(q: Queue, n: nat)
    requires n < |q.turns|
    ensures
      var t, t' := q.turns[n], Free(q, n).turns[n];
      && t'.profile == t.profile && t'.prev == t.prev && t'.tailDone == t.tailDone
      && t'.phase == if t.phase.Granted? then Freed else t.phase
    ensures forall profile ::
      && (profile in Free(q, n).tails <==>
            profile in q.tails &&
            !(q.tails[profile] == n && q.turns[n].phase.Granted? && q.turns[n].profile == profile))
      && (profile in Free(q, n).tails ==> Free(q, n).tails[profile] == q.tails[profile])
  {
  }

  lemma TailIsTold(p: Process, step: Step, profile: string)
    requires Inv(p) && Possible(p, step)
    ensures TailAsTold(p, step, After(p, step), profile)
  {
    if profile in p.queue.tails {
      GivesBackExactly(p, step, p.queue.tails[profile]);
    }
    if Returned(p, step).Some? {
      ReturnsTurn(p, step);
      FreedTurn(p.queue, Returned(p, step).value);
    } else if !step.Call? && !step.TurnGranted? && !step.QueueTimeout? && !step.TailResolved? {
      ReturnsNothing(p, step);
    }
  }

  lemma QueueIsTold(p: Process, step: Step)
    requires Inv(p) && Possible(p, step)
    ensures QueueAsTold(p, step, After(p, step))
  {
    forall n: nat | n < |p.queue.turns| ensures TurnAsTold(p, step, After(p, step), n) {
      TurnIsTold(p, step, n);
    }
    forall profile ensures TailAsTold(p, step, After(p, step), profile) {
      TailIsTold(p, step, profile);
    }
    NewTurnIsTold(p, step);
  }

  lemma NewTurnIsTold(p: Process, step: Step)
    requires Inv(p) && Possible(p, step)
    ensures
      var p' := After(p, step);
      && |p'.queue.turns| == |p.queue.turns| + (if Joins(p, step) then 1 else 0)
      && (Joins(p, step) ==>
            p'.queue.turns[|p.queue.turns|] ==
              Turn(step.profile, if step.profile in p.queue.tails then Some(p.queue.tails[step.profile]) else None,
                   Waiting, false))
  {
    if Returned(p, step).Some? {
      ReturnsTurn(p, step);
      FreeTouchesOne(p.queue, Returned(p, step).value);
    } else if !step.Call? && !step.TurnGranted? && !step.QueueTimeout? && !step.TailResolved? {
      ReturnsNothing(p, step);
    }
  }

  lemma StageIsTold(p: Process, step: Step, n: nat)
    requires Inv(p) && Possible(p, step) && n < |p.stages|
    ensures |p.stages| <= |After(p, step).stages| && StageAsTold(p, step, After(p, step), n)
  {
    GivesBackExactly(p, step, n);
    if Returned(p, step).Some? {
      ReturnsTurn(p, step);
    } else if !step.Call? && !step.TurnGranted? && !step.QueueTimeout? && !step.TailResolved? {
      ReturnsNothing(p, step);
    }
  }

  /** Every step does to each field what the process before it tells. */
  lemma StepIsTold(p: Process, step: Step)
    requires Inv(p) && Possible(p, step)
    ensures StepAsTold(p, step, After(p, step))
  {
    EntriesAreTold(p, step);
    HeldIsTold(p, step);
    forall profile ensures SessionAsTold(p, step, After(p, step), profile) {
      SessionIsTold(p, step, profile);
    }
    QueueIsTold(p, step);
    forall n: nat | n < |p.stages| ensures StageAsTold(p, step, After(p, step), n) {
      StageIsTold(p, step, n);
    }
    CallsAreTold(p, step);
  }

  // ------------------------------------------------------------ the module's state

  /** The maps of the module and the calls in progress on them. */
  class LeaseDesk {
    const profileTurns: ProfileTurns
    const controller: Controller
    var stages: seq<Stage>
    var entries: seq<Entry>
    var held: map<string, nat>
    var manualUntil: map<string, int>
    var releases: seq<Release>
    var renewals: seq<Renewal>
    var now: int

    function View(): Process
      reads this, profileTurns, controller
    {
      Process(profileTurns.View(), stages, entries, held, manualUntil, releases, renewals, controller.requests, now)
    }

    constructor (start: int)
      ensures Fresh(View()) && Inv(View()) && now == start && fresh(profileTurns) && fresh(controller)
    {
      profileTurns := new ProfileTurns();
      controller := new Controller();
      stages, entries, held, manualUntil, releases, renewals, now := [], [], map[], map[], [], [], start;
    }

    /** A request of an acquire, a renewal or a release joins the channel. */
    method Send(caller: Caller) returns (request: nat)
      requires Inv(View()) && Possible(View(), RequestSent(caller))
      modifies controller
      ensures Inv(View()) && View() == After(old(View()), RequestSent(caller)) && request == |old(controller.requests)|
      ensures StepAsTold(old(View()), RequestSent(caller), View())
    {
      StepIsTold(View(), RequestSent(caller));
      StepKeepsInv(View(), RequestSent(caller));
      request := controller.Submit(caller);
    }

    method StartRequest(request: nat)
      requires Inv(View()) && Possible(View(), RequestStarted(request))
      modifies controller
      ensures Inv(View()) && View() == After(old(View()), RequestStarted(request))
      ensures StepAsTold(old(View()), RequestStarted(request), View())
      ensures forall i | 0 <= i < |controller.requests| && controller.requests[i].progress.Running? :: i == request
    {
      StepIsTold(View(), RequestStarted(request));
      StepKeepsInv(View(), RequestStarted(request));
      controller.Start(request);
    }

    method EndRequest(request: nat)
      requires Inv(View()) && Possible(View(), RequestEnded(request))
      modifies controller
      ensures Inv(View()) && View() == After(old(View()), RequestEnded(request))
      ensures StepAsTold(old(View()), RequestEnded(request), View())
    {
      StepIsTold(View(), RequestEnded(request));
      StepKeepsInv(View(), RequestEnded(request));
      controller.End(request);
    }

    /** The clock that deadlines and timers read moves on between await points, and nothing else does. */
    method Wait(ms: nat)
      requires Inv(View())
      modifies this`now
      ensures Inv(View()) && View() == After(old(View()), Tick(ms))
      ensures StepAsTold(old(View()), Tick(ms), View())
    {
      StepIsTold(View(), Tick(ms));
      TickKeepsInv(View(), ms);
      now := now + ms;
    }

    /** The synchronous start of an acquire. No turn is taken while a person's session lasts. */
    method Ask(profile: string, manual: bool) returns (turn: Option<nat>)
      requires Inv(View())
      modifies this`stages, profileTurns
      ensures Inv(View()) && View() == After(old(View()), Call(profile, manual))
      ensures StepAsTold(old(View()), Call(profile, manual), View())
      ensures turn.Some? ==> turn.value == |old(stages)|
      ensures turn.None? <==> !manual && ManualUntil(old(View()), profile) > now
    {
      StepIsTold(View(), Call(profile, manual));
      CallKeepsInv(View(), profile, manual);
      var until := if profile in manualUntil then manualUntil[profile] else 0;
      if !manual && until > now {
        return None;
      }
      var n := profileTurns.Join(profile);
      stages := stages + [InQueue];
      turn := Some(n);
    }

    method Decide(turn: nat, ready: bool)
      requires Inv(View()) && Possible(View(), if ready then TurnGranted(turn) else QueueTimeout(turn))
      modifies this`stages, profileTurns
      ensures Inv(View()) && View() == After(old(View()), if ready then TurnGranted(turn) else QueueTimeout(turn))
      ensures StepAsTold(old(View()), if ready then TurnGranted(turn) else QueueTimeout(turn), View())
    {
      StepIsTold(View(), if ready then TurnGranted(turn) else QueueTimeout(turn));
      DecidedKeepsInv(View(), turn, ready);
      profileTurns.Decide(turn, ready);
      stages := stages[turn := if ready then Posting else Ended];
    }

    method ResolveTail(turn: nat)
      requires Inv(View()) && Possible(View(), TailResolved(turn))
      modifies profileTurns
      ensures Inv(View()) && View() == After(old(View()), TailResolved(turn))
      ensures StepAsTold(old(View()), TailResolved(turn), View())
    {
      StepIsTold(View(), TailResolved(turn));
      ResolvedKeepsInv(View(), turn);
      profileTurns.ResolveTail(turn);
    }

    method Refused(turn: nat)
      requires Inv(View()) && Possible(View(), LeaseRefused(turn))
      modifies this`stages, profileTurns
      ensures Inv(View()) && View() == After(old(View()), LeaseRefused(turn))
      ensures StepAsTold(old(View()), LeaseRefused(turn), View())
    {
      StepIsTold(View(), LeaseRefused(turn));
      RefusedKeepsInv(View(), turn);
      profileTurns.Release(turn);
      stages := stages[turn := Ended];
    }

    /** The owner granted a lease. */
    method Take(turn: nat, manual: bool, id: string, expires: int)
      requires Inv(View()) && Possible(View(), LeaseGranted(turn, manual, id, expires))
      modifies this, profileTurns
      ensures Inv(View()) && View() == After(old(View()), LeaseGranted(turn, manual, id, expires))
      ensures StepAsTold(old(View()), LeaseGranted(turn, manual, id, expires), View())
    {
      StepIsTold(View(), LeaseGranted(turn, manual, id, expires));
      StepKeepsInv(View(), LeaseGranted(turn, manual, id, expires));
      var profile := profileTurns.turns[turn].profile;
      var entry := |entries|;
      if manual {
        manualUntil := manualUntil[profile := expires];
        profileTurns.Release(turn);
        stages := stages[turn := Ended];
      } else {
        stages := stages[turn := Holding(entry)];
      }
      entries := entries + [Entry(id, profile, manual, turn, Some(Armed(now, expires)))];
      held := held[id := entry];
    }

    /** Clears the timer and frees the turn; a manual entry has nothing to free. */
    method Close(entry: nat)
      requires Valid(profileTurns.View()) && entry < |entries| && entries[entry].turn < |stages| == |profileTurns.turns|
      modifies this`entries, this`stages, profileTurns
      ensures View() == EntryFreed(old(View()), entry)
      ensures Valid(profileTurns.View())
    {
      var e := entries[entry];
      entries := entries[entry := e.(timer := None)];
      if !e.manual {
        profileTurns.Release(e.turn);
        stages := stages[e.turn := Ended];
      }
    }

    /** Closes an entry and forgets its id, if that still means this entry; `forget`: a person's session with it. */
    method LetGo(entry: nat, id: string, forget: bool)
      requires Valid(profileTurns.View()) && entry < |entries| && entries[entry].turn < |stages| == |profileTurns.turns|
      modifies this`held, this`manualUntil, this`entries, this`stages, profileTurns
      ensures View() == EntryFreed(old(View()), entry).(
                held := DropHeld(old(held), entry, id),
                manualUntil := if forget then old(manualUntil) - {old(entries)[entry].profile} else old(manualUntil))
      ensures Valid(profileTurns.View())
    {
      if id in held && held[id] == entry {
        held := held - {id};
      }
      if forget {
        manualUntil := manualUntil - {entries[entry].profile};
      }
      Close(entry);
    }

    method Fire(entry: nat)
      requires Inv(View()) && Possible(View(), TimerFired(entry))
      modifies this, profileTurns
      ensures Inv(View()) && View() == After(old(View()), TimerFired(entry))
      ensures StepAsTold(old(View()), TimerFired(entry), View())
    {
      StepIsTold(View(), TimerFired(entry));
      FiredKeepsInv(View(), entry);
      var e := entries[entry];
      var until := if e.profile in manualUntil then manualUntil[e.profile] else 0;
      LetGo(entry, e.id, e.manual && until <= e.timer.value.expires);
    }

    method BeginRenewal(id: string) returns (renewal: nat)
      requires Inv(View())
      modifies this`renewals
      ensures Inv(View()) && View() == After(old(View()), RenewalBegun(id)) && renewal == |old(renewals)|
      ensures StepAsTold(old(View()), RenewalBegun(id), View())
    {
      StepIsTold(View(), RenewalBegun(id));
      StepKeepsInv(View(), RenewalBegun(id));
      renewal := |renewals|;
      renewals := renewals + [Renewal(id, false)];
    }

    /** The renewal's request loop is over; `expires` is the new expiry if it succeeded. */
    method EndRenewal(renewal: nat, expires: Option<int>)
      requires Inv(View()) && Possible(View(), RenewalEnded(renewal, expires))
      modifies this
      ensures Inv(View()) && View() == After(old(View()), RenewalEnded(renewal, expires))
      ensures StepAsTold(old(View()), RenewalEnded(renewal, expires), View())
    {
      StepIsTold(View(), RenewalEnded(renewal, expires));
      RenewalDoneKeepsInv(View(), renewal, expires);
      var id := renewals[renewal].id;
      renewals := renewals[renewal := renewals[renewal].(over := true)];
      if expires.Some? && id in held {
        var e := held[id];
        if entries[e].manual {
          manualUntil := manualUntil[entries[e].profile := expires.value];
        }
        entries := entries[e := entries[e].(timer := Some(Armed(now, expires.value)))];
      }
    }

    method BeginRelease(id: string) returns (release: nat)
      requires Inv(View())
      modifies this`releases
      ensures Inv(View()) && View() == After(old(View()), ReleaseBegun(id)) && release == |old(releases)|
      ensures StepAsTold(old(View()), ReleaseBegun(id), View())
    {
      StepIsTold(View(), ReleaseBegun(id));
      ReleaseBegunKeepsInv(View(), id);
      release := |releases|;
      releases := releases + [Release(if id in held then Some(held[id]) else None, id, false)];
    }

    /** The exchange with the owner is over, one way or the other. */
    method EndRelease(release: nat, released: bool)
      requires Inv(View()) && Possible(View(), ReleaseEnded(release, released))
      modifies this, profileTurns
      ensures Inv(View()) && View() == After(old(View()), ReleaseEnded(release, released))
      ensures StepAsTold(old(View()), ReleaseEnded(release, released), View())
    {
      StepIsTold(View(), ReleaseEnded(release, released));
      ReleaseDoneKeepsInv(View(), release, released);
      var r := releases[release];
      releases := releases[release := r.(over := true)];
      if r.entry.Some? && (released || !entries[r.entry.value].manual) {
        LetGo(r.entry.value, r.id, entries[r.entry.value].manual);
      }
    }
  }
}
