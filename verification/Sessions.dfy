/** A person's sessions on a profile: exactly when automatic reads fail at once, and when an open session does not make
    them. */
module Sessions {
  import opened Basics
  import B = BrowserTurns
  import opened BrowserLease

  // ------------------------------------------------------------ what is remembered, exactly

  /** The expiry a step remembers for the profile: of a lease given to a person, or of its renewal. */
  function Remembers(p: Process, step: Step, profile: string): Option<int> {
    match step
    case LeaseGranted(n, manual, _, expires) =>
      if manual && n < |p.queue.turns| && p.queue.turns[n].profile == profile then Some(expires) else None
    case RenewalEnded(k, until) =>
      if k < |p.renewals| && p.renewals[k].id in p.held && IsManual(p, p.held[p.renewals[k].id], profile) then until
      else None
    case _ => None
  }

  predicate IsManual(p: Process, e: nat, profile: string) {
    e < |p.entries| && p.entries[e].manual && p.entries[e].profile == profile
  }

  /** A step forgets the profile's session: a timer not overtaken by a later expiry, or a successful close. */
  predicate Forgets(p: Process, step: Step, profile: string) {
    match step
    case TimerFired(e) =>
      && IsManual(p, e, profile) && p.entries[e].timer.Some?
      && ManualUntil(p, profile) <= p.entries[e].timer.value.expires
    case ReleaseEnded(r, released) =>
      && released && r < |p.releases| && p.releases[r].entry.Some?
      && IsManual(p, p.releases[r].entry.value, profile)
    case _ => false
  }

  lemma ManualAfter(p: Process, step: Step, profile: string)
    requires Sized(p) && Possible(p, step)
    ensures
      var p' := After(p, step);
      var remembered := Remembers(p, step, profile);
      && (profile in p'.manualUntil <==>
            remembered.Some? || (profile in p.manualUntil && !Forgets(p, step, profile)))
      && (profile in p'.manualUntil ==>
            p'.manualUntil[profile] == if remembered.Some? then remembered.value else p.manualUntil[profile])
  {
  }

  /** Step `k` remembered a session, and nothing up to state `b` has forgotten or replaced it. */
  predicate Stands(states: seq<Process>, steps: seq<Step>, k: nat, b: nat, profile: string) {
    && |states| == |steps| + 1 && k < b < |states| && Remembers(states[k], steps[k], profile).Some?
    && forall j | k < j < b ::
         Remembers(states[j], steps[j], profile).None? && !Forgets(states[j], steps[j], profile)
  }

  lemma {:induction false} RememberedExactly(states: seq<Process>, steps: seq<Step>, b: nat,
                                             profile: string)
    requires IsRun(states, steps) && b < |states|
    ensures profile in states[b].manualUntil <==> exists k: nat :: Stands(states, steps, k, b, profile)
    ensures forall k: nat | Stands(states, steps, k, b, profile) ::
      profile in states[b].manualUntil
      && states[b].manualUntil[profile] == Remembers(states[k], steps[k], profile).value
  {
    if b > 0 {
      var last: nat := b - 1;
      RememberedExactly(states, steps, last, profile);
      assert StepAt(states, steps, b - 1);
      ManualAfter(states[b - 1], steps[b - 1], profile);
      StandsBefore(states, steps, b, profile);
      if Remembers(states[b - 1], steps[b - 1], profile).Some? {
        assert Stands(states, steps, b - 1, b, profile);
      } else if k: nat :| Stands(states, steps, k, last, profile) {
        assert Stands(states, steps, k, b, profile) <==> !Forgets(states[b - 1], steps[b - 1], profile);
      }
    }
  }

  /** What stands after a step: what it remembers, or else what stood before and was not forgotten. */
  lemma StandsBefore(states: seq<Process>, steps: seq<Step>, b: nat, profile: string)
    requires |states| == |steps| + 1 && 0 < b < |states|
    ensures
      var remembered := Remembers(states[b - 1], steps[b - 1], profile).Some?;
      forall k: nat :: Stands(states, steps, k, b, profile) <==>
        if remembered then k == b - 1
        else Stands(states, steps, k, b - 1, profile) && !Forgets(states[b - 1], steps[b - 1], profile)
  {
  }

  /** Over all runs: an automatic read fails at once if and only if the last thing that happened to the profile's
      session was a grant or a renewal that is still ahead of its expiry. */
  lemma BlockedExactly(states: seq<Process>, steps: seq<Step>, b: nat, profile: string)
    requires IsRun(states, steps) && b < |states| && states[b].now >= 0
    ensures Called(states[b], profile, false) == states[b] <==>
      exists k: nat ::
        Stands(states, steps, k, b, profile) && Remembers(states[k], steps[k], profile).value > states[b].now
  {
    RememberedExactly(states, steps, b, profile);
    BlockedByExpiry(states[b], profile);
  }

  lemma BlockedByExpiry(p: Process, profile: string)
    ensures Called(p, profile, false) == p <==> ManualUntil(p, profile) > p.now
  {
    if ManualUntil(p, profile) <= p.now {
      assert |Called(p, profile, false).stages| == |p.stages| + 1;
    }
  }

  // ------------------------------------------------------------ a session that is alone

  /** No other lease of a person on the profile is open or still being closed. */
  ghost predicate Alone(p: Process, e: nat, profile: string) {
    && (forall x: nat | x != e && IsManual(p, x, profile) :: p.entries[x].timer.None?)
    && (forall r | 0 <= r < |p.releases| && !p.releases[r].over && p.releases[r].entry.Some? ::
          IsManual(p, p.releases[r].entry.value, profile) ==> p.releases[r].entry.value == e)
  }

  predicate OpenSession(p: Process, e: nat, profile: string) {
    IsManual(p, e, profile) && p.entries[e].timer.Some?
  }

  lemma GrantIsSession(p: Process, n: nat, id: string, expires: int)
    requires Sized(p) && Possible(p, LeaseGranted(n, true, id, expires))
    ensures Session(After(p, LeaseGranted(n, true, id, expires)), |p.entries|, p.queue.turns[n].profile)
  {
  }

  /** A lone session that stays open is not forgotten. */
  lemma AloneNotForgotten(p: Process, step: Step, e: nat, profile: string)
    requires Inv(p) && Possible(p, step) && Alone(p, e, profile)
    requires OpenSession(p, e, profile) && OpenSession(After(p, step), e, profile)
    ensures !Forgets(p, step, profile)
  {
    match step
    case TimerFired(x) =>
    case ReleaseEnded(r, released) =>
    case _ =>
  }

  /** What is remembered while a session stays alone is its own renewal; nothing else touches its timer. */
  lemma AloneRemembers(p: Process, step: Step, e: nat, profile: string)
    requires Inv(p) && Possible(p, step) && Alone(p, e, profile) && OpenSession(p, e, profile)
    requires OpenSession(After(p, step), e, profile) && Alone(After(p, step), e, profile)
    ensures
      var timer := After(p, step).entries[e].timer.value;
      if Remembers(p, step, profile).Some? then timer.expires == Remembers(p, step, profile).value
      else timer == p.entries[e].timer.value
  {
    match step
    case LeaseGranted(n, manual, _, _) => GrantIsNotAlone(p, step, e, profile);
    case RenewalEnded(k, until) => RenewsOnlyItself(p, k, until, e, profile);
    case _ =>
  }

  lemma GrantIsNotAlone(p: Process, step: Step, e: nat, profile: string)
    requires Sized(p) && Possible(p, step) && step.LeaseGranted? && OpenSession(p, e, profile)
    requires Alone(After(p, step), e, profile)
    ensures Remembers(p, step, profile).None?
  {
    if Remembers(p, step, profile).Some? {
      assert OpenSession(After(p, step), |p.entries|, profile);
    }
  }

  lemma RenewsOnlyItself(p: Process, k: nat, until: Option<int>, e: nat, profile: string)
    requires Inv(p) && Possible(p, RenewalEnded(k, until)) && Alone(p, e, profile) && OpenSession(p, e, profile)
    ensures
      var step := RenewalEnded(k, until);
      var timer := After(p, step).entries[e].timer;
      && e < |After(p, step).entries| && timer.Some?
      && if Remembers(p, step, profile).Some? then timer.value.expires == Remembers(p, step, profile).value
         else timer == p.entries[e].timer
  {
    var id := p.renewals[k].id;
    if id in p.held && IsManual(p, p.held[id], profile) {
      assert p.entries[p.held[id]].timer.Some?;
      assert p.held[id] == e;
    }
  }

  lemma AloneStays(p: Process, step: Step, e: nat, profile: string)
    requires Inv(p) && Possible(p, step) && Session(p, e, profile) && Alone(p, e, profile)
    requires OpenSession(After(p, step), e, profile) && Alone(After(p, step), e, profile)
    ensures Session(After(p, step), e, profile)
  {
    ManualAfter(p, step, profile);
    AloneNotForgotten(p, step, e, profile);
    AloneRemembers(p, step, e, profile);
  }

  /** From the grant of a person's lease on, as long as it is the only one of its profile that is open or being closed,
      automatic reads fail at once if and only if it has not expired. */
  lemma {:induction false} LoneSessionBlocks(states: seq<Process>, steps: seq<Step>, a: nat, b: nat,
                                             e: nat, profile: string)
    requires IsRun(states, steps) && a <= b < |states| && Session(states[a], e, profile)
    requires forall k | a <= k <= b :: OpenSession(states[k], e, profile) && Alone(states[k], e, profile)
    ensures Session(states[b], e, profile)
    ensures Called(states[b], profile, false) == states[b] <==>
      states[b].entries[e].timer.value.expires > states[b].now
    decreases b - a
  {
    if a < b {
      LoneSessionBlocks(states, steps, a, b - 1, e, profile);
      RunKeepsInv(states, steps, b - 1);
      assert StepAt(states, steps, b - 1);
      AloneStays(states[b - 1], steps[b - 1], e, profile);
    }
    BlockedByExpiry(states[b], profile);
  }

  // ------------------------------------------------------------ two sessions on one profile

  /** A process whose calls on the one profile are all over. */
  predicate Resting(p: Process) {
    && p.queue.tails == map[] && |p.stages| == |p.queue.turns| == |p.channel| && p.releases == []
    && (forall i | 0 <= i < |p.queue.turns| :: p.queue.turns[i].profile == "profile")
    && (forall k | 0 <= k < |p.channel| :: p.channel[k].progress.Done? && p.channel[k].caller == B.ForTurn(k))
    && (forall e | 0 <= e < |p.entries| :: p.entries[e].turn < |p.stages|)
    && (forall id | id in p.held :: p.held[id] < |p.entries|)
  }

  function Turned(p: Process, phase: B.Phase, stage: Stage): Process {
    p.(queue := B.Queue(p.queue.turns + [B.Turn("profile", None, phase, false)], map["profile" := |p.queue.turns|]),
       stages := p.stages + [stage])
  }

  function Asked(p: Process, progress: B.Progress): Process {
    Turned(p, B.Granted, Posting).(channel := p.channel + [B.Exchange(B.ForTurn(|p.stages|), progress)])
  }

  /** The same process once a person's lease was asked for and given. */
  function Given(p: Process, id: string, expires: int): Process {
    p.(queue := B.Queue(p.queue.turns + [B.Turn("profile", None, B.Freed, false)], map[]), stages := p.stages + [Ended],
       entries := p.entries + [Entry(id, "profile", true, |p.stages|, Some(Armed(p.now, expires)))],
       held := p.held[id := |p.entries|], manualUntil := p.manualUntil["profile" := expires],
       channel := p.channel + [B.Exchange(B.ForTurn(|p.stages|), B.Done)])
  }

  lemma TurnIsTaken(p: Process)
    requires Resting(p)
    ensures Goes(p, Call("profile", true), Turned(p, B.Waiting, InQueue))
    ensures Goes(Turned(p, B.Waiting, InQueue), TurnGranted(|p.stages|), Turned(p, B.Granted, Posting))
  {
  }

  lemma RequestIsMade(p: Process)
    requires Resting(p)
    ensures Goes(Turned(p, B.Granted, Posting), RequestSent(B.ForTurn(|p.stages|)), Asked(p, B.Queued))
    ensures Goes(Asked(p, B.Queued), RequestStarted(|p.stages|), Asked(p, B.Running))
    ensures Goes(Asked(p, B.Running), RequestEnded(|p.stages|), Asked(p, B.Done))
  {
  }

  lemma LeaseIsGiven(p: Process, id: string, expires: int)
    requires Resting(p) && expires > p.now
    ensures Goes(Asked(p, B.Done), LeaseGranted(|p.stages|, true, id, expires), Given(p, id, expires))
    ensures Resting(Given(p, id, expires))
  {
    assert Asked(p, B.Done).channel[|p.stages|].caller == B.ForTurn(|p.stages|);
  }

  /** A stretch of a run. */
  ghost predicate Stretch(states: seq<Process>, steps: seq<Step>, first: Process, last: Process) {
    && |states| == |steps| + 1 && states[0] == first && states[|steps|] == last
    && forall i | 0 <= i < |steps| :: StepAt(states, steps, i)
  }

  lemma Extend(states: seq<Process>, steps: seq<Step>, first: Process, last: Process, step: Step, next: Process)
    requires Stretch(states, steps, first, last) && Goes(last, step, next)
    ensures Stretch(states + [next], steps + [step], first, next)
  {
    forall i | 0 <= i < |steps + [step]| ensures StepAt(states + [next], steps + [step], i) {
      assert i < |steps| ==> StepAt(states, steps, i);
    }
  }

  /** A run goes on with one person's lease. */
  lemma AskRuns(states: seq<Process>, steps: seq<Step>, first: Process, p: Process, id: string, expires: int)
    returns (longer: seq<Process>, more: seq<Step>)
    requires Stretch(states, steps, first, p) && Resting(p) && expires > p.now
    ensures Stretch(longer, more, first, Given(p, id, expires)) && |more| == |steps| + 6
    ensures Resting(Given(p, id, expires))
  {
    var n := |p.stages|;
    TurnIsTaken(p);
    RequestIsMade(p);
    LeaseIsGiven(p, id, expires);
    longer, more := GoOn(states, steps, first, p, Call("profile", true), Turned(p, B.Waiting, InQueue));
    longer, more := GoOn(longer, more, first, Turned(p, B.Waiting, InQueue), TurnGranted(n),
                         Turned(p, B.Granted, Posting));
    longer, more := GoOn(longer, more, first, Turned(p, B.Granted, Posting), RequestSent(B.ForTurn(n)),
                         Asked(p, B.Queued));
    longer, more := GoOn(longer, more, first, Asked(p, B.Queued), RequestStarted(n), Asked(p, B.Running));
    longer, more := GoOn(longer, more, first, Asked(p, B.Running), RequestEnded(n), Asked(p, B.Done));
    longer, more := GoOn(longer, more, first, Asked(p, B.Done), LeaseGranted(n, true, id, expires),
                         Given(p, id, expires));
  }

  lemma GoOn(states: seq<Process>, steps: seq<Step>, first: Process, last: Process, step: Step, next: Process)
    returns (longer: seq<Process>, more: seq<Step>)
    requires Stretch(states, steps, first, last) && Goes(last, step, next)
    ensures Stretch(longer, more, first, next) && |more| == |steps| + 1
  {
    Extend(states, steps, first, last, step, next);
    longer, more := states + [next], steps + [step];
  }

  function Start(start: int): Process {
    Process(B.Queue([], map[]), [], [], map[], map[], [], [], [], start)
  }

  /** A long session and then a shorter one. */
  function Both(start: int): Process {
    Given(Given(Start(start), "long", start + 60_000), "short", start + 1_000)
  }

  function Late(start: int): Process {
    Both(start).(now := start + 2_000)
  }

  function Left(start: int): Process {
    Late(start).(entries := Both(start).entries[1 := Both(start).entries[1].(timer := None)],
                 held := map["long" := 0], manualUntil := map[])
  }

  lemma ShortOneEnds(start: int)
    ensures Goes(Both(start), Tick(2_000), Late(start)) && Goes(Late(start), TimerFired(1), Left(start))
  {
    assert Both(start).held - {"short"} == map["long" := 0];
    assert Both(start).manualUntil - {"profile"} == map[];
  }

  /** The promise does not hold of two sessions on one profile: a run on which a shorter one ends and automatic reads
      are let through, although the first is open and far from its expiry. */
  lemma ShorterSessionUnblocks(start: int) returns (states: seq<Process>, steps: seq<Step>)
    requires start >= 0
    ensures IsRun(states, steps) && |steps| == 14 && states[0].now == start
    ensures OpenSession(states[14], 0, "profile")
    ensures states[14].entries[0].timer.value.expires > states[14].now
    ensures Called(states[14], "profile", false) != states[14]
  {
    var p := Start(start);
    states, steps := AskRuns([p], [], p, p, "long", start + 60_000);
    states, steps := AskRuns(states, steps, p, Given(p, "long", start + 60_000), "short", start + 1_000);
    ShortOneEnds(start);
    states, steps := GoOn(states, steps, p, Both(start), Tick(2_000), Late(start));
    states, steps := GoOn(states, steps, p, Late(start), TimerFired(1), Left(start));
    BlockedByExpiry(Left(start), "profile");
  }
}
