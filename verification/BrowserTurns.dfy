/** Turns on a browser profile: promise chains with waiters that give up, and one serial controller channel. */
module BrowserTurns {
  import opened Basics

  datatype Phase = Waiting | Granted | TimedOut | Freed

  /** One call of `profileTurn`. `prev` is the turn whose tail it awaits, `tailDone` whether its own tail
      promise has resolved; its inner promise resolves when it is freed or times out. */
  datatype Turn = Turn(profile: string, prev: Option<nat>, phase: Phase, tailDone: bool)

  datatype Queue = Queue(turns: seq<Turn>, tails: map<string, nat>)

  predicate Over(t: Turn) {
    t.phase.TimedOut? || t.phase.Freed?
  }

  // ------------------------------------------------------------ steps between await points

  predicate PrevDone(q: Queue, n: nat)
    requires n < |q.turns|
  {
    q.turns[n].prev.None? || (q.turns[n].prev.value < |q.turns| && q.turns[q.turns[n].prev.value].tailDone)
  }

  function Arrive(q: Queue, profile: string): Queue {
    Queue(q.turns + [Turn(profile, if profile in q.tails then Some(q.tails[profile]) else None, Waiting, false)],
          q.tails[profile := |q.turns|])
  }

  /** The previous tail resolved before the deadline. */
  predicate CanGrant(q: Queue, n: nat) {
    n < |q.turns| && q.turns[n].phase.Waiting? && PrevDone(q, n)
  }

  function Phased(q: Queue, n: nat, phase: Phase): Queue
    requires n < |q.turns|
  {
    q.(turns := q.turns[n := q.turns[n].(phase := phase)])
  }

  function Forgotten(q: Queue, n: nat): Queue
    requires n < |q.turns|
  {
    var profile := q.turns[n].profile;
    if profile in q.tails && q.tails[profile] == n then q.(tails := q.tails - {profile}) else q
  }

  /** The function a granted turn is freed with; later calls do nothing. */
  function Free(q: Queue, n: nat): Queue
    requires n < |q.turns|
  {
    if q.turns[n].phase.Granted? then Forgotten(Phased(q, n, Freed), n) else q
  }

  /** A tail resolves once the previous one and the turn's own promise have. */
  predicate CanSettle(q: Queue, n: nat) {
    n < |q.turns| && Over(q.turns[n]) && !q.turns[n].tailDone && PrevDone(q, n)
  }

  /** A timed out turn's entry goes only now, when everything before it is over. */
  function Settle(q: Queue, n: nat): Queue
    requires n < |q.turns|
  {
    var done := q.(turns := q.turns[n := q.turns[n].(tailDone := true)]);
    if q.turns[n].phase.TimedOut? then Forgotten(done, n) else done
  }

  datatype Step =
    | ArriveAt(profile: string)
    | Grant(turn: nat)
    | GiveUp(turn: nat)
    | FreeTurn(turn: nat)
    | SettleTail(turn: nat)

  predicate Enabled(q: Queue, step: Step) {
    match step
    case ArriveAt(_) => true
    case Grant(n) => CanGrant(q, n)
    case GiveUp(n) => n < |q.turns| && q.turns[n].phase.Waiting?
    case FreeTurn(n) => n < |q.turns|
    case SettleTail(n) => CanSettle(q, n)
  }

  function Next(q: Queue, step: Step): Queue
    requires Enabled(q, step)
  {
    match step
    case ArriveAt(profile) => Arrive(q, profile)
    case Grant(n) => Phased(q, n, Granted)
    case GiveUp(n) => Phased(q, n, TimedOut)
    case FreeTurn(n) => Free(q, n)
    case SettleTail(n) => Settle(q, n)
  }

  // ------------------------------------------------------------ the invariant

  predicate Linked(q: Queue, n: nat)
    requires n < |q.turns|
  {
    var t := q.turns[n];
    match t.prev
    case None => forall i | 0 <= i < n && q.turns[i].profile == t.profile :: Over(q.turns[i])
    case Some(p) =>
      && p < n && q.turns[p].profile == t.profile
      && forall i | p < i < n :: q.turns[i].profile != t.profile
  }

  predicate Chained(q: Queue, n: nat)
    requires n < |q.turns|
  {
    && (q.turns[n].tailDone ==> Over(q.turns[n]) && PrevDone(q, n))
    && (q.turns[n].phase.Granted? || q.turns[n].phase.Freed? ==> PrevDone(q, n))
  }

  /** A profile's entry is its last turn; a profile without an entry has no turn in progress. */
  ghost predicate Tailed(q: Queue) {
    && (forall p | p in q.tails :: q.tails[p] < |q.turns| && q.turns[q.tails[p]].profile == p
         && forall i | q.tails[p] < i < |q.turns| :: q.turns[i].profile != p)
    && (forall i | 0 <= i < |q.turns| && q.turns[i].profile !in q.tails :: Over(q.turns[i]))
  }

  ghost predicate Valid(q: Queue) {
    && (forall n | 0 <= n < |q.turns| :: Linked(q, n) && Chained(q, n))
    && Tailed(q)
  }

  /** A resolved tail means every turn of the profile up to it is over. */
  lemma {:induction false} TailMeansOver(q: Queue, n: nat, i: nat)
    requires Valid(q) && i <= n < |q.turns| && q.turns[n].tailDone && q.turns[i].profile == q.turns[n].profile
    ensures Over(q.turns[i])
    decreases n
  {
    assert Linked(q, n) && Chained(q, n);
    if i < n && q.turns[n].prev.Some? {
      TailMeansOver(q, q.turns[n].prev.value, i);
    }
  }

  /** A turn that was granted has nothing in progress before it. */
  lemma GrantedMeansFirst(q: Queue, n: nat, i: nat)
    requires Valid(q) && i < n < |q.turns| && q.turns[i].profile == q.turns[n].profile
    requires q.turns[n].phase.Granted? || q.turns[n].phase.Freed? || PrevDone(q, n)
    ensures Over(q.turns[i])
  {
    assert Linked(q, n) && Chained(q, n);
    if q.turns[n].prev.Some? {
      TailMeansOver(q, q.turns[n].prev.value, i);
    }
  }

  /** Per profile at most one granted turn is not yet freed. */
  lemma MutualExclusion(q: Queue, i: nat, j: nat)
    requires Valid(q) && i < |q.turns| && j < |q.turns| && q.turns[i].profile == q.turns[j].profile
    requires q.turns[i].phase.Granted? && q.turns[j].phase.Granted?
    ensures i == j
  {
    if i < j {
      GrantedMeansFirst(q, j, i);
    } else if j < i {
      GrantedMeansFirst(q, i, j);
    }
  }

  lemma ArriveKeepsValid(q: Queue, profile: string)
    requires Valid(q)
    ensures Valid(Arrive(q, profile))
  {
    var q' := Arrive(q, profile);
    assert forall i | 0 <= i < |q.turns| :: q'.turns[i] == q.turns[i];
    forall n | 0 <= n < |q'.turns| ensures Linked(q', n) && Chained(q', n) {
      if n < |q.turns| {
        assert Linked(q, n) && Chained(q, n);
      }
    }
  }

  /** A turn moves on; nobody else's links change. */
  lemma PhasedKeepsLinks(q: Queue, n: nat, phase: Phase, m: nat)
    requires Valid(q) && n < |q.turns| && m < |q.turns|
    requires phase != Waiting && (Over(q.turns[n]) ==> phase == q.turns[n].phase)
    requires phase.Granted? || phase.Freed? ==> PrevDone(q, n)
    ensures Linked(Phased(q, n, phase), m) && Chained(Phased(q, n, phase), m)
  {
    assert Linked(q, m) && Chained(q, m) && Chained(q, n);
    var q' := Phased(q, n, phase);
    assert forall i | 0 <= i < |q.turns| :: q'.turns[i] == q.turns[i].(phase := q'.turns[i].phase);
    assert forall i | 0 <= i < |q.turns| :: Over(q.turns[i]) ==> Over(q'.turns[i]);
  }

  lemma PhasedKeepsValid(q: Queue, n: nat, phase: Phase)
    requires Valid(q) && n < |q.turns|
    requires phase != Waiting && (Over(q.turns[n]) ==> phase == q.turns[n].phase)
    requires phase.Granted? || phase.Freed? ==> PrevDone(q, n)
    ensures Valid(Phased(q, n, phase))
  {
    var q' := Phased(q, n, phase);
    forall m | 0 <= m < |q'.turns| ensures Linked(q', m) && Chained(q', m) {
      PhasedKeepsLinks(q, n, phase, m);
    }
    assert forall i | 0 <= i < |q.turns| ::
      q'.turns[i].profile == q.turns[i].profile && (Over(q.turns[i]) ==> Over(q'.turns[i]));
  }

  /** Dropping the entry of a turn that is over, with everything before it, lets a new chain start safely. */
  lemma ForgottenKeepsValid(q: Queue, n: nat)
    requires Valid(q) && n < |q.turns| && Over(q.turns[n]) && PrevDone(q, n)
    ensures Valid(Forgotten(q, n))
  {
    var q' := Forgotten(q, n);
    assert q'.turns == q.turns;
    forall m | 0 <= m < |q'.turns| ensures Linked(q', m) && Chained(q', m) {
      assert Linked(q, m) && Chained(q, m);
    }
    var profile := q.turns[n].profile;
    if profile in q.tails && q.tails[profile] == n {
      forall i | 0 <= i < |q.turns| && q.turns[i].profile !in q'.tails ensures Over(q.turns[i]) {
        if q.turns[i].profile == profile && i < n {
          GrantedMeansFirst(q, n, i);
        }
      }
    }
  }

  lemma SettleKeepsValid(q: Queue, n: nat)
    requires Valid(q) && CanSettle(q, n)
    ensures Valid(Settle(q, n))
  {
    var done := q.(turns := q.turns[n := q.turns[n].(tailDone := true)]);
    assert forall i | 0 <= i < |q.turns| :: done.turns[i] == q.turns[i].(tailDone := done.turns[i].tailDone);
    assert forall i | 0 <= i < |q.turns| :: q.turns[i].tailDone ==> done.turns[i].tailDone;
    forall m | 0 <= m < |done.turns| ensures Linked(done, m) && Chained(done, m) {
      assert Linked(q, m) && Chained(q, m);
    }
    assert Valid(done);
    if q.turns[n].phase.TimedOut? {
      ForgottenKeepsValid(done, n);
    }
  }

  lemma StepKeepsValid(q: Queue, step: Step)
    requires Valid(q) && Enabled(q, step)
    ensures Valid(Next(q, step))
  {
    match step
    case ArriveAt(profile) => ArriveKeepsValid(q, profile);
    case Grant(n) => PhasedKeepsValid(q, n, Granted);
    case GiveUp(n) => PhasedKeepsValid(q, n, TimedOut);
    case FreeTurn(n) =>
      if q.turns[n].phase.Granted? {
        assert Chained(q, n);
        PhasedKeepsValid(q, n, Freed);
        ForgottenKeepsValid(Phased(q, n, Freed), n);
      }
    case SettleTail(n) => SettleKeepsValid(q, n);
  }

  // ------------------------------------------------------------ every run

  ghost predicate IsRun(states: seq<Queue>, steps: seq<Step>) {
    && |states| == |steps| + 1
    && forall i | 0 <= i < |steps| :: Enabled(states[i], steps[i]) && states[i + 1] == Next(states[i], steps[i])
  }

  lemma {:induction false} RunKeepsValid(states: seq<Queue>, steps: seq<Step>, k: nat)
    requires IsRun(states, steps) && Valid(states[0]) && k < |states|
    ensures Valid(states[k])
  {
    if k > 0 {
      RunKeepsValid(states, steps, k - 1);
      StepKeepsValid(states[k - 1], steps[k - 1]);
    }
  }

  /** What is over stays over, with its phase. */
  lemma {:induction false} OverStays(states: seq<Queue>, steps: seq<Step>, a: nat, b: nat, n: nat)
    requires IsRun(states, steps) && a <= b < |states| && n < |states[a].turns| && Over(states[a].turns[n])
    ensures n < |states[b].turns| && states[b].turns[n].phase == states[a].turns[n].phase
    ensures states[b].turns[n].profile == states[a].turns[n].profile
    decreases b - a
  {
    if a < b {
      OverStays(states, steps, a, b - 1, n);
      assert states[b] == Next(states[b - 1], steps[b - 1]);
    }
  }

  lemma {:induction false} TurnsStay(states: seq<Queue>, steps: seq<Step>, a: nat, b: nat)
    requires IsRun(states, steps) && a <= b < |states|
    ensures |states[a].turns| <= |states[b].turns|
    ensures forall n | 0 <= n < |states[a].turns| :: states[b].turns[n].profile == states[a].turns[n].profile
    decreases b - a
  {
    if a < b {
      TurnsStay(states, steps, a, b - 1);
      assert states[b] == Next(states[b - 1], steps[b - 1]);
    }
  }

  /** Turns of a profile are granted in order of arrival, on every run, even when waiters give up in between
      or an entry was dropped and a new chain started; and no turn is granted twice. */
  lemma GrantsInOrder(states: seq<Queue>, steps: seq<Step>, a: nat, b: nat)
    requires IsRun(states, steps) && Valid(states[0]) && a < b < |steps|
    requires steps[a].Grant? && steps[b].Grant?
    requires steps[b].turn < |states[a].turns| ==>
      states[a].turns[steps[a].turn].profile == states[a].turns[steps[b].turn].profile
    ensures steps[a].turn < steps[b].turn
  {
    var i, j := steps[a].turn, steps[b].turn;
    RunKeepsValid(states, steps, a);
    assert Enabled(states[a], steps[a]) && states[a + 1] == Next(states[a], steps[a]);
    if j < i {
      GrantedMeansFirst(states[a], i, j);
      OverStays(states, steps, a, b, j);
    } else if j == i {
      GrantedNeverWaits(states, steps, a + 1, b, i);
    }
  }

  lemma {:induction false} GrantedNeverWaits(states: seq<Queue>, steps: seq<Step>, a: nat, b: nat, n: nat)
    requires IsRun(states, steps) && a <= b < |states| && n < |states[a].turns| && !states[a].turns[n].phase.Waiting?
    ensures n < |states[b].turns| && !states[b].turns[n].phase.Waiting?
    decreases b - a
  {
    if a < b {
      GrantedNeverWaits(states, steps, a, b - 1, n);
      assert states[b] == Next(states[b - 1], steps[b - 1]);
    }
  }

  // ------------------------------------------------------------ nobody blocks the queue

  /** Below a waiting turn with nothing granted, some tail can still resolve, or the turn can be granted. */
  lemma {:induction false} TailCanMove(q: Queue, n: nat)
    requires Valid(q) && n < |q.turns| && Over(q.turns[n]) && !q.turns[n].tailDone
    requires forall i | 0 <= i <= n && q.turns[i].profile == q.turns[n].profile :: Over(q.turns[i])
    ensures exists m | 0 <= m <= n :: CanSettle(q, m)
    decreases n
  {
    if PrevDone(q, n) {
      assert CanSettle(q, n);
    } else {
      assert Linked(q, n);
      TailCanMove(q, q.turns[n].prev.value);
    }
  }

  /** Deadlock freedom: while somebody waits on a profile that nobody holds, the queue can move, whoever gave
      up before. */
  lemma {:induction false} QueueNeverSticks(q: Queue, n: nat)
    requires Valid(q) && n < |q.turns| && q.turns[n].phase.Waiting?
    requires forall i | 0 <= i < |q.turns| && q.turns[i].profile == q.turns[n].profile :: !q.turns[i].phase.Granted?
    ensures exists m | 0 <= m <= n :: CanGrant(q, m) || CanSettle(q, m)
    decreases n
  {
    if i :| 0 <= i < n && q.turns[i].profile == q.turns[n].profile && q.turns[i].phase.Waiting? {
      QueueNeverSticks(q, i);
    } else {
      assert Linked(q, n);
      if PrevDone(q, n) {
        assert CanGrant(q, n);
      } else {
        TailCanMove(q, q.turns[n].prev.value);
      }
    }
  }

  // ------------------------------------------------------------ the objects

  /** The module's `profileTails` map with the promises it has created. */
  class ProfileTurns {
    var turns: seq<Turn>
    var tails: map<string, nat>

    function View(): Queue
      reads this
    {
      Queue(turns, tails)
    }

    constructor ()
      ensures View() == Queue([], map[]) && Valid(View())
    {
      turns, tails := [], map[];
    }

    /** The synchronous part of `profileTurn`. */
    method Join(profile: string) returns (turn: nat)
      requires Valid(View())
      modifies this
      ensures Valid(View()) && View() == Arrive(old(View()), profile) && turn == |old(turns)|
    {
      ArriveKeepsValid(View(), profile);
      var previous := if profile in tails then Some(tails[profile]) else None;
      turn := |turns|;
      turns := turns + [Turn(profile, previous, Waiting, false)];
      tails := tails[profile := turn];
    }

    /** The race of the previous tail against the deadline has been decided. */
    method Decide(turn: nat, ready: bool)
      requires Valid(View()) && turn < |turns| && turns[turn].phase.Waiting? && (ready ==> CanGrant(View(), turn))
      modifies this`turns
      ensures Valid(View()) && View() == Phased(old(View()), turn, if ready then Granted else TimedOut)
      ensures ready ==> forall i | 0 <= i < turn && turns[i].profile == turns[turn].profile :: Over(turns[i])
    {
      PhasedKeepsValid(View(), turn, if ready then Granted else TimedOut);
      if ready {
        forall i | 0 <= i < turn && turns[i].profile == turns[turn].profile ensures Over(turns[i]) {
          GrantedMeansFirst(View(), turn, i);
        }
      }
      turns := turns[turn := turns[turn].(phase := if ready then Granted else TimedOut)];
    }

    method Release(turn: nat)
      requires Valid(View()) && turn < |turns|
      modifies this
      ensures Valid(View()) && View() == Free(old(View()), turn)
    {
      StepKeepsValid(View(), FreeTurn(turn));
      if turns[turn].phase.Granted? {
        var profile := turns[turn].profile;
        turns := turns[turn := turns[turn].(phase := Freed)];
        if profile in tails && tails[profile] == turn {
          tails := tails - {profile};
        }
      }
    }

    /** The tail promise resolves, with the clean-up a timed out turn attached to it. */
    method ResolveTail(turn: nat)
      requires Valid(View()) && CanSettle(View(), turn)
      modifies this
      ensures Valid(View()) && View() == Settle(old(View()), turn)
    {
      SettleKeepsValid(View(), turn);
      var t := turns[turn];
      turns := turns[turn := t.(tailDone := true)];
      if t.phase.TimedOut? && t.profile in tails && tails[t.profile] == turn {
        tails := tails - {t.profile};
      }
    }
  }

  // ------------------------------------------------------------ the controller channel

  /** Who sends a lifecycle request: a call that holds a turn, a renewal or a release. */
  datatype Caller = ForTurn(turn: nat) | ForRenewal(renewal: nat) | ForRelease(release: nat)

  datatype Progress = Queued | Running | Done

  datatype Exchange = Exchange(caller: Caller, progress: Progress)

  type Channel = seq<Exchange>

  function Submitted(c: Channel, caller: Caller): Channel {
    c + [Exchange(caller, Queued)]
  }

  /** The request before it has ended, however it ended. */
  predicate CanStart(c: Channel, k: nat) {
    k < |c| && c[k].progress.Queued? && (k > 0 ==> c[k - 1].progress.Done?)
  }

  predicate CanEnd(c: Channel, k: nat) {
    k < |c| && c[k].progress.Running?
  }

  function Moved(c: Channel, k: nat, progress: Progress): Channel
    requires k < |c|
  {
    c[k := c[k].(progress := progress)]
  }

  /** Nothing has started before everything before it has ended. */
  predicate Serial(c: Channel) {
    forall i, j | 0 <= i < j < |c| && !c[j].progress.Queued? :: c[i].progress.Done?
  }

  /** No request of the caller is waiting or running. */
  predicate Idle(c: Channel, caller: Caller) {
    forall k | 0 <= k < |c| && c[k].caller == caller :: c[k].progress.Done?
  }

  predicate Answered(c: Channel, caller: Caller) {
    Idle(c, caller) && exists k | 0 <= k < |c| :: c[k].caller == caller
  }

  lemma SubmitKeepsSerial(c: Channel, caller: Caller)
    requires Serial(c)
    ensures Serial(Submitted(c, caller))
  {
    assert forall i | 0 <= i < |c| :: Submitted(c, caller)[i] == c[i];
  }

  lemma QueuedAfter(c: Channel, k: nat)
    requires Serial(c) && k < |c| && !c[k].progress.Done?
    ensures forall j | k < j < |c| :: c[j].progress.Queued?
  {
  }

  lemma StartKeepsSerial(c: Channel, k: nat)
    requires Serial(c) && CanStart(c, k)
    ensures Serial(Moved(c, k, Running))
  {
    forall i | 0 <= i < k ensures c[i].progress.Done? {
      assert i < k - 1 ==> c[i].progress.Done?;
    }
    QueuedAfter(c, k);
  }

  lemma EndKeepsSerial(c: Channel, k: nat)
    requires Serial(c) && CanEnd(c, k)
    ensures Serial(Moved(c, k, Done))
  {
    QueuedAfter(c, k);
  }

  /** While anything is waiting, something runs or the next request can start. */
  lemma {:induction false} ChannelNeverSticks(c: Channel, k: nat)
    requires Serial(c) && k < |c| && c[k].progress.Queued?
    ensures exists i | 0 <= i <= k :: c[i].progress.Running? || CanStart(c, i)
    decreases k
  {
    if k > 0 && c[k - 1].progress.Queued? {
      ChannelNeverSticks(c, k - 1);
    } else if k > 0 && c[k - 1].progress.Running? {
      assert c[k - 1].progress.Running?;
    } else {
      assert CanStart(c, k);
    }
  }

  /** The chain of promises behind `controllerTail`. */
  class Controller {
    var requests: Channel

    constructor ()
      ensures requests == [] && Serial(requests)
    {
      requests := [];
    }

    method Submit(caller: Caller) returns (request: nat)
      requires Serial(requests)
      modifies this
      ensures Serial(requests) && requests == Submitted(old(requests), caller) && request == |old(requests)|
    {
      SubmitKeepsSerial(requests, caller);
      request := |requests|;
      requests := requests + [Exchange(caller, Queued)];
    }

    method Start(request: nat)
      requires Serial(requests) && CanStart(requests, request)
      modifies this
      ensures Serial(requests) && requests == Moved(old(requests), request, Running)
      ensures forall i | 0 <= i < |requests| && requests[i].progress.Running? :: i == request
    {
      StartKeepsSerial(requests, request);
      requests := requests[request := requests[request].(progress := Running)];
    }

    method End(request: nat)
      requires Serial(requests) && CanEnd(requests, request)
      modifies this
      ensures Serial(requests) && requests == Moved(old(requests), request, Done)
      ensures forall i | 0 <= i < |requests| :: !requests[i].progress.Running?
    {
      EndKeepsSerial(requests, request);
      requests := requests[request := requests[request].(progress := Done)];
    }
  }
}
