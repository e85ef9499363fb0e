/** The membership cache: a map in insertion order, swept from the front and capped. */
module MembershipCache {
  import opened Basics

  const TTL_MS: int := 60_000
  const CAPACITY: nat := 1000

  /** One entry; the sequence of entries is the map's insertion order. */
  datatype Entry<V> = Entry(user: string, at: int, value: V)

  predicate Expired<V>(e: Entry<V>, now: int) {
    now - e.at >= TTL_MS
  }

  // ------------------------------------------------------------ the operations on entries

  /** The sweep stops at the first entry that has not expired. */
  function Sweep<V>(entries: seq<Entry<V>>, now: int): seq<Entry<V>> {
    if entries != [] && Expired(entries[0], now) then Sweep(entries[1..], now) else entries
  }

  /** Which entries a removal takes out. */
  datatype Cut = OfUser(user: string) | ExpiredAt(now: int)

  predicate Taken<V>(e: Entry<V>, cut: Cut) {
    match cut
    case OfUser(user) => e.user == user
    case ExpiredAt(now) => Expired(e, now)
  }

  function Keep<V>(entries: seq<Entry<V>>, cut: Cut): seq<Entry<V>> {
    if entries == [] then []
    else if Taken(entries[0], cut) then Keep(entries[1..], cut)
    else [entries[0]] + Keep(entries[1..], cut)
  }

  /** `Map.delete`. */
  function Without<V>(entries: seq<Entry<V>>, user: string): seq<Entry<V>> {
    Keep(entries, OfUser(user))
  }

  function Newest<V>(entries: seq<Entry<V>>, n: nat): seq<Entry<V>> {
    if |entries| <= n then entries else entries[|entries| - n..]
  }

  function Remember<V>(entries: seq<Entry<V>>, e: Entry<V>): seq<Entry<V>> {
    Newest(Without(Sweep(entries, e.at), e.user) + [e], CAPACITY)
  }

  function Find<V>(entries: seq<Entry<V>>, user: string): Option<Entry<V>> {
    if entries == [] then None
    else if entries[0].user == user then Some(entries[0])
    else Find(entries[1..], user)
  }

  // ------------------------------------------------------------ the sweep

  /** What a full scan would keep. */
  function Unexpired<V>(entries: seq<Entry<V>>, now: int): seq<Entry<V>> {
    Keep(entries, ExpiredAt(now))
  }

  /** Insertion order is age order. */
  ghost predicate Aged<V>(entries: seq<Entry<V>>) {
    entries == [] || (Aged(entries[1..]) && forall e | e in entries[1..] :: entries[0].at <= e.at)
  }

  /** No expired entry stands behind one that has not expired. */
  predicate ExpiredFirst<V>(entries: seq<Entry<V>>, now: int) {
    forall i, j | 0 <= i < j < |entries| && Expired(entries[j], now) :: Expired(entries[i], now)
  }

  lemma {:induction false} AllFresh<V>(entries: seq<Entry<V>>, now: int)
    requires forall i | 0 <= i < |entries| :: !Expired(entries[i], now)
    ensures Unexpired(entries, now) == entries
  {
    if entries != [] {
      AllFresh(entries[1..], now);
    }
  }

  lemma {:induction false} UnexpiredIsShorter<V>(entries: seq<Entry<V>>, now: int)
    ensures |Unexpired(entries, now)| <= |entries|
    ensures (exists i | 0 <= i < |entries| :: Expired(entries[i], now)) ==> |Unexpired(entries, now)| < |entries|
  {
    if entries != [] {
      UnexpiredIsShorter(entries[1..], now);
      assert forall i | 0 < i < |entries| :: entries[i] == entries[1..][i - 1];
    }
  }

  /** The early exit removes exactly what a full scan would if, and only if, expired entries come first. */
  lemma {:induction false} SweepIsFullScanExactly<V>(entries: seq<Entry<V>>, now: int)
    ensures Sweep(entries, now) == Unexpired(entries, now) <==> ExpiredFirst(entries, now)
  {
    if entries != [] {
      var rest := entries[1..];
      if Expired(entries[0], now) {
        SweepIsFullScanExactly(rest, now);
        assert ExpiredFirst(entries, now) <==> ExpiredFirst(rest, now) by {
          assert forall i | 0 < i < |entries| :: entries[i] == rest[i - 1];
          assert forall i | 0 <= i < |rest| :: rest[i] == entries[i + 1];
        }
      } else if ExpiredFirst(entries, now) {
        AllFresh(entries, now);
      } else {
        var i, j :| 0 <= i < j < |entries| && Expired(entries[j], now) && !Expired(entries[i], now);
        UnexpiredIsShorter(entries, now);
      }
    }
  }

  lemma {:induction false} AgedPairs<V>(entries: seq<Entry<V>>, i: nat, j: nat)
    requires Aged(entries) && i < j < |entries|
    ensures entries[i].at <= entries[j].at
  {
    if i == 0 {
      assert entries[1..][j - 1] == entries[j];
    } else {
      AgedPairs(entries[1..], i - 1, j - 1);
    }
  }

  /** Under a monotone clock insertion order is age order, which is enough. */
  lemma AgedIsEnough<V>(entries: seq<Entry<V>>, now: int)
    requires Aged(entries)
    ensures ExpiredFirst(entries, now)
  {
    forall i, j | 0 <= i < j < |entries| && Expired(entries[j], now) ensures Expired(entries[i], now) {
      AgedPairs(entries, i, j);
    }
  }

  // ------------------------------------------------------------ every run

  /** Calls in order of time. */
  predicate Monotone<V>(calls: seq<Entry<V>>) {
    forall i, j | 0 <= i < j < |calls| :: calls[i].at <= calls[j].at
  }

  /** The cache after a history of calls. */
  function Cached<V>(calls: seq<Entry<V>>): seq<Entry<V>> {
    if calls == [] then [] else Remember(Cached(calls[..|calls| - 1]), calls[|calls| - 1])
  }

  /** The same without any cap: the latest call of each user that has not expired, in order of time. */
  function Unbounded<V>(calls: seq<Entry<V>>): seq<Entry<V>> {
    if calls == [] then []
    else
      var last := calls[|calls| - 1];
      Without(Unexpired(Unbounded(calls[..|calls| - 1]), last.at), last.user) + [last]
  }

  /** No user twice. */
  ghost predicate Users<V>(entries: seq<Entry<V>>) {
    entries == [] || (Users(entries[1..]) && forall e | e in entries[1..] :: entries[0].user != e.user)
  }

  lemma {:induction false} KeepMembers<V>(entries: seq<Entry<V>>, cut: Cut)
    ensures forall e | e in Keep(entries, cut) :: e in entries && !Taken(e, cut)
    ensures forall e | e in entries && !Taken(e, cut) :: e in Keep(entries, cut)
    ensures |Keep(entries, cut)| <= |entries|
  {
    if entries != [] {
      KeepMembers(entries[1..], cut);
      assert entries == [entries[0]] + entries[1..];
    }
  }

  lemma {:induction false} KeepAged<V>(entries: seq<Entry<V>>, cut: Cut)
    requires Aged(entries)
    ensures Aged(Keep(entries, cut))
  {
    if entries != [] {
      KeepAged(entries[1..], cut);
      var kept := Keep(entries[1..], cut);
      forall e | e in kept ensures entries[0].at <= e.at {
        KeepMembers(entries[1..], cut);
        assert e in entries[1..];
      }
      assert ([entries[0]] + kept)[1..] == kept;
    }
  }

  lemma {:induction false} KeepUsers<V>(entries: seq<Entry<V>>, cut: Cut)
    requires Users(entries)
    ensures Users(Keep(entries, cut))
  {
    if entries != [] {
      KeepUsers(entries[1..], cut);
      var kept := Keep(entries[1..], cut);
      forall e | e in kept ensures entries[0].user != e.user {
        KeepMembers(entries[1..], cut);
        assert e in entries[1..];
      }
      assert ([entries[0]] + kept)[1..] == kept;
    }
  }

  /** Removing entries keeps the order and the uniqueness of the others. */
  lemma KeepOrder<V>(entries: seq<Entry<V>>, cut: Cut)
    requires Aged(entries) && Users(entries)
    ensures Aged(Keep(entries, cut)) && Users(Keep(entries, cut))
  {
    KeepAged(entries, cut);
    KeepUsers(entries, cut);
  }

  lemma {:induction false} PutLast<V>(entries: seq<Entry<V>>, last: Entry<V>)
    requires forall e | e in entries :: e.at <= last.at && e.user != last.user
    ensures Aged(entries) ==> Aged(entries + [last])
    ensures Users(entries) ==> Users(entries + [last])
  {
    if entries != [] {
      assert (entries + [last])[1..] == entries[1..] + [last];
      assert forall e | e in entries[1..] :: e in entries;
      assert entries[0] in entries;
      PutLast(entries[1..], last);
    }
  }

  lemma {:induction false} OrderOfSplit<V>(a: seq<Entry<V>>, b: seq<Entry<V>>)
    ensures Aged(a + b) ==> Aged(b)
    ensures Users(a + b) ==> Users(b) && forall c, d | c in a && d in b :: c.user != d.user
  {
    if a == [] {
      assert a + b == b;
    } else {
      assert (a + b)[1..] == a[1..] + b;
      OrderOfSplit(a[1..], b);
      assert a == [a[0]] + a[1..];
      assert forall d | d in b :: d in a[1..] + b;
    }
  }

  lemma {:induction false} UnboundedInvariant<V>(calls: seq<Entry<V>>)
    requires Monotone(calls)
    ensures Aged(Unbounded(calls)) && Users(Unbounded(calls))
    ensures forall e | e in Unbounded(calls) :: e in calls
  {
    if calls != [] {
      var front, last := calls[..|calls| - 1], calls[|calls| - 1];
      assert calls == front + [last];
      assert forall i | 0 <= i < |front| :: front[i] == calls[i];
      UnboundedInvariant(front);
      var live := Unexpired(Unbounded(front), last.at);
      KeepMembers(Unbounded(front), ExpiredAt(last.at));
      KeepOrder(Unbounded(front), ExpiredAt(last.at));
      KeepMembers(live, OfUser(last.user));
      KeepOrder(live, OfUser(last.user));
      var kept := Keep(live, OfUser(last.user));
      forall e | e in kept ensures e in front && e.at <= last.at && e.user != last.user {
        assert e in live && !Taken(e, OfUser(last.user));
        assert e in Keep(Unbounded(front), ExpiredAt(last.at));
        assert e in Unbounded(front);
        var k :| 0 <= k < |front| && front[k] == e;
        assert calls[k] == e;
      }
      PutLast(kept, last);
    }
  }

  lemma {:induction false} UnexpiredOfNewest<V>(entries: seq<Entry<V>>, n: nat, now: int)
    requires Aged(entries)
    ensures Sweep(Newest(entries, n), now) == Newest(Unexpired(entries, now), n)
  {
    var newest := Newest(entries, n);
    NewestOrder(entries, n);
    AgedIsEnough(newest, now);
    SweepIsFullScanExactly(newest, now);
    KeepMembers(entries, ExpiredAt(now));
    if |entries| > n {
      if Expired(entries[0], now) {
        assert Newest(entries[1..], n) == newest;
        UnexpiredOfNewest(entries[1..], n, now);
      } else {
        AgedIsEnough(entries, now);
        AllFresh(entries, now);
        AllFresh(newest, now);
      }
    }
  }

  lemma NewestOfTail<V>(entries: seq<Entry<V>>, n: nat)
    requires |entries| > n
    ensures Newest(entries[1..], n) == Newest(entries, n)
  {
  }

  lemma NewestOrder<V>(entries: seq<Entry<V>>, n: nat)
    ensures Aged(entries) ==> Aged(Newest(entries, n))
    ensures Users(entries) ==> Users(Newest(entries, n))
  {
    if |entries| > n {
      assert entries == entries[..|entries| - n] + Newest(entries, n);
      OrderOfSplit(entries[..|entries| - n], Newest(entries, n));
    }
  }

  lemma {:induction false} WithoutAbsent<V>(entries: seq<Entry<V>>, user: string)
    requires forall e | e in entries :: e.user != user
    ensures Without(entries, user) == entries
  {
    if entries != [] {
      assert entries[0] in entries;
      assert forall e | e in entries[1..] :: e in entries;
      WithoutAbsent(entries[1..], user);
    }
  }

  lemma {:induction false} WithoutSplit<V>(a: seq<Entry<V>>, b: seq<Entry<V>>, user: string)
    ensures Without(a + b, user) == Without(a, user) + Without(b, user)
  {
    if a == [] {
      assert a + b == b;
    } else {
      assert (a + b)[1..] == a[1..] + b;
      WithoutSplit(a[1..], b, user);
    }
  }

  lemma {:induction false} WithoutOne<V>(entries: seq<Entry<V>>, user: string)
    requires Users(entries)
    ensures (exists e | e in entries :: e.user == user) ==> |Without(entries, user)| == |entries| - 1
  {
    if entries != [] {
      assert entries == [entries[0]] + entries[1..];
      if entries[0].user == user {
        WithoutAbsent(entries[1..], user);
      } else {
        WithoutOne(entries[1..], user);
      }
    }
  }

  lemma NewestOfLonger<V>(a: seq<Entry<V>>, b: seq<Entry<V>>, n: nat)
    requires |b| == n
    ensures Newest(a + b, n) == b
  {
  }

  lemma ReinsertKnown<V>(older: seq<Entry<V>>, newest: seq<Entry<V>>, e: Entry<V>, d: Entry<V>)
    requires Users(older + newest) && d in newest && d.user == e.user
    ensures Newest(Without(newest, e.user) + [e], |newest|) == Newest(Without(older + newest, e.user) + [e], |newest|)
  {
    OrderOfSplit(older, newest);
    WithoutSplit(older, newest, e.user);
    WithoutAbsent(older, e.user);
    WithoutOne(newest, e.user);
    NewestOfLonger(older, Without(newest, e.user) + [e], |newest|);
    assert older + Without(newest, e.user) + [e] == older + (Without(newest, e.user) + [e]);
  }

  lemma ReinsertNew<V>(older: seq<Entry<V>>, newest: seq<Entry<V>>, e: Entry<V>)
    requires newest != [] && forall d | d in newest :: d.user != e.user
    ensures Newest(Without(newest, e.user) + [e], |newest|) == Newest(Without(older + newest, e.user) + [e], |newest|)
  {
    WithoutSplit(older, newest, e.user);
    WithoutAbsent(newest, e.user);
    var tail := newest[1..] + [e];
    NewestOfLonger(newest[..1], tail, |newest|);
    NewestOfLonger(Without(older, e.user) + newest[..1], tail, |newest|);
    assert newest + [e] == newest[..1] + tail;
    assert Without(older, e.user) + newest + [e] == (Without(older, e.user) + newest[..1]) + tail;
  }

  /** Re-inserting a user into the newest entries is the newest of re-inserting it into all of them. */
  lemma ReinsertNewest<V>(entries: seq<Entry<V>>, n: nat, e: Entry<V>)
    requires n > 0 && Users(entries)
    ensures Newest(Without(Newest(entries, n), e.user) + [e], n) == Newest(Without(entries, e.user) + [e], n)
  {
    if |entries| > n {
      var older, newest := entries[..|entries| - n], Newest(entries, n);
      assert entries == older + newest;
      if d :| d in newest && d.user == e.user {
        ReinsertKnown(older, newest, e, d);
      } else {
        ReinsertNew(older, newest, e);
      }
    }
  }

  /** Refinement: on every run with a monotone clock, the capped and lazily swept map holds exactly the newest
      entries of the uncapped, fully swept one. */
  lemma {:induction false} CacheIsNewest<V>(calls: seq<Entry<V>>)
    requires Monotone(calls)
    ensures Cached(calls) == Newest(Unbounded(calls), CAPACITY)
    ensures |Cached(calls)| <= CAPACITY && Aged(Cached(calls)) && Users(Cached(calls))
    ensures calls != [] ==> Cached(calls)[|Cached(calls)| - 1] == calls[|calls| - 1]
  {
    UnboundedInvariant(calls);
    if calls != [] {
      var front, last := calls[..|calls| - 1], calls[|calls| - 1];
      assert forall i | 0 <= i < |front| :: front[i] == calls[i];
      CacheIsNewest(front);
      UnboundedInvariant(front);
      RememberNewest(Unbounded(front), last);
    }
    NewestOrder(Unbounded(calls), CAPACITY);
  }

  /** One call on the newest entries keeps the newest entries. */
  lemma RememberNewest<V>(all: seq<Entry<V>>, last: Entry<V>)
    requires Aged(all) && Users(all)
    ensures Remember(Newest(all, CAPACITY), last) ==
      Newest(Without(Unexpired(all, last.at), last.user) + [last], CAPACITY)
  {
    UnexpiredOfNewest(all, CAPACITY, last.at);
    KeepOrder(all, ExpiredAt(last.at));
    ReinsertNewest(Unexpired(all, last.at), CAPACITY, last);
  }

  /** The survivors are the newest: whatever the cap dropped is no younger than anything kept. */
  lemma DroppedAreOldest<V>(calls: seq<Entry<V>>, dropped: Entry<V>, kept: Entry<V>)
    requires Monotone(calls)
    requires dropped in Unbounded(calls) && dropped !in Cached(calls) && kept in Cached(calls)
    ensures dropped.at <= kept.at && |Cached(calls)| == CAPACITY
  {
    CacheIsNewest(calls);
    UnboundedInvariant(calls);
    OlderThanNewest(Unbounded(calls), CAPACITY, dropped, kept);
  }

  lemma OlderThanNewest<V>(all: seq<Entry<V>>, n: nat, dropped: Entry<V>, kept: Entry<V>)
    requires Aged(all) && dropped in all && dropped !in Newest(all, n) && kept in Newest(all, n)
    ensures dropped.at <= kept.at && |Newest(all, n)| == n
  {
    assert |all| > n;
    var i :| 0 <= i < |all| && all[i] == dropped;
    var k :| 0 <= k < n && Newest(all, n)[k] == kept;
    assert kept == all[|all| - n + k];
    NewestAt(all, n);
    assert i < |all| - n;
    AgedPairs(all, i, |all| - n + k);
  }

  lemma NewestAt<V>(all: seq<Entry<V>>, n: nat)
    requires n < |all|
    ensures forall i | |all| - n <= i < |all| :: all[i] in Newest(all, n)
  {
    forall i | |all| - n <= i < |all| ensures all[i] in Newest(all, n) {
      assert Newest(all, n)[i - (|all| - n)] == all[i];
    }
  }

  /** A clock that steps back leaves an expired entry behind, on three calls: the last one sweeps, yet the expired
      entry of the second survives it. */
  lemma SteppingBackLeavesExpired<V>(value: V) returns (calls: seq<Entry<V>>)
    ensures |calls| == 3 && calls[1] in Cached(calls) && Expired(calls[1], calls[2].at)
    ensures !Monotone(calls)
  {
    var a, b, c := Entry("a", 100_000, value), Entry("b", 0, value), Entry("c", 100_000, value);
    calls := [a, b, c];
    RememberOne([], a);
    RememberOne([a], b);
    RememberOne([a, b], c);
    assert calls[..2] == [a, b] && calls[..2][..1] == [a] && calls[..2][..1][..0] == [];
    assert Cached(calls[..2][..1]) == [a];
    assert Cached(calls[..2]) == [a, b];
    assert Cached(calls) == [a, b, c];
    assert calls[0].at > calls[1].at;
  }

  /** One call of a new user while the front entry has not expired and there is room. */
  lemma RememberOne<V>(entries: seq<Entry<V>>, e: Entry<V>)
    requires entries != [] ==> !Expired(entries[0], e.at)
    requires forall d | d in entries :: d.user != e.user
    requires |entries| < CAPACITY
    ensures Remember(entries, e) == entries + [e]
  {
    WithoutAbsent(entries, e.user);
  }

  // ------------------------------------------------------------ reading

  /** The last call for a user, if any. */
  function Latest<V>(calls: seq<Entry<V>>, user: string): Option<Entry<V>> {
    if calls == [] then None
    else if calls[|calls| - 1].user == user then Some(calls[|calls| - 1])
    else Latest(calls[..|calls| - 1], user)
  }

  lemma {:induction false} UnboundedIsLatest<V>(calls: seq<Entry<V>>, e: Entry<V>)
    requires e in Unbounded(calls)
    ensures Latest(calls, e.user) == Some(e)
  {
    var front, last := calls[..|calls| - 1], calls[|calls| - 1];
    KeepMembers(Unbounded(front), ExpiredAt(last.at));
    KeepMembers(Unexpired(Unbounded(front), last.at), OfUser(last.user));
    if e != last {
      assert e in Without(Unexpired(Unbounded(front), last.at), last.user);
      UnboundedIsLatest(front, e);
    }
  }

  lemma {:induction false} FindIsMember<V>(entries: seq<Entry<V>>, user: string)
    ensures Find(entries, user).Some? ==> Find(entries, user).value in entries && Find(entries, user).value.user == user
    ensures Find(entries, user).None? ==> forall e | e in entries :: e.user != user
  {
    if entries != [] {
      FindIsMember(entries[1..], user);
      assert entries == [entries[0]] + entries[1..];
    }
  }

  lemma {:induction false} FindFirst<V>(entries: seq<Entry<V>>, user: string)
    ensures forall k | 0 <= k < |entries| && entries[k].user == user
                       && (forall j | 0 <= j < k :: entries[j].user != user) ::
      Find(entries, user) == Some(entries[k])
    ensures (forall k | 0 <= k < |entries| :: entries[k].user != user) ==> Find(entries, user) == None
  {
    if entries != [] {
      FindFirst(entries[1..], user);
      assert forall k | 0 < k < |entries| :: entries[k] == entries[1..][k - 1];
    }
  }

  /** A cached answer is always the last one remembered for that very user. */
  lemma CachedIsLatest<V>(calls: seq<Entry<V>>, user: string)
    requires Monotone(calls) && Find(Cached(calls), user).Some?
    ensures Latest(calls, user) == Find(Cached(calls), user)
  {
    CacheIsNewest(calls);
    FindIsMember(Cached(calls), user);
    assert forall e | e in Cached(calls) :: e in Unbounded(calls);
    UnboundedIsLatest(calls, Find(Cached(calls), user).value);
  }

  // ------------------------------------------------------------ one call, told from the entries before it

  /** The first `i` entries are a minute old or older, and the next one, if any, is not. */
  predicate SweptTo<V>(entries: seq<Entry<V>>, now: int, i: nat) {
    && i <= |entries|
    && (forall k | 0 <= k < i :: now - entries[k].at >= 60_000)
    && (i < |entries| ==> now - entries[i].at < 60_000)
  }

  /** The user's entry stands at `j`, or nowhere if that is the end. */
  predicate StandsAt<V>(entries: seq<Entry<V>>, user: string, j: nat) {
    && j <= |entries|
    && (j < |entries| ==> entries[j].user == user)
    && forall k | 0 <= k < |entries| && k != j :: entries[k].user != user
  }

  /** The old entries go up to `i`, the user's own goes from `j`, the new one comes last, and of all these the last
      thousand stay. */
  ghost predicate RememberedAs<V>(before: seq<Entry<V>>, user: string, value: V, now: int, i: nat, j: nat,
                            after: seq<Entry<V>>)
  {
    && SweptTo(before, now, i) && StandsAt(before[i..], user, j)
    && var rest := before[i..];
       var others := if j < |rest| then rest[..j] + rest[j + 1..] else rest;
       var all := others + [Entry(user, now, value)];
       after == if |all| <= 1_000 then all else all[|all| - 1_000..]
  }

  ghost predicate RememberedAsTold<V>(before: seq<Entry<V>>, user: string, value: V, now: int, after: seq<Entry<V>>) {
    exists i: nat, j: nat :: RememberedAs(before, user, value, now, i, j, after)
  }

  lemma {:induction false} SweepExactly<V>(entries: seq<Entry<V>>, now: int) returns (i: nat)
    ensures SweptTo(entries, now, i) && Sweep(entries, now) == entries[i..]
  {
    if entries != [] && Expired(entries[0], now) {
      var k := SweepExactly(entries[1..], now);
      i := k + 1;
      assert forall m | 0 < m < |entries| :: entries[m] == entries[1..][m - 1];
    } else {
      i := 0;
    }
  }

  lemma {:induction false} WithoutExactly<V>(entries: seq<Entry<V>>, user: string) returns (j: nat)
    requires Users(entries)
    ensures StandsAt(entries, user, j)
    ensures Without(entries, user) == if j < |entries| then entries[..j] + entries[j + 1..] else entries
  {
    if entries == [] {
      j := 0;
    } else if entries[0].user == user {
      j := 0;
      WithoutAbsent(entries[1..], user);
      assert forall k | 0 < k < |entries| :: entries[k] == entries[1..][k - 1];
    } else {
      var rest := entries[1..];
      var k := WithoutExactly(rest, user);
      j := k + 1;
      assert forall m | 0 < m < |entries| :: entries[m] == rest[m - 1];
      assert k < |rest| ==> [entries[0]] + (rest[..k] + rest[k + 1..]) == entries[..j] + entries[j + 1..];
      assert [entries[0]] + rest == entries;
    }
  }

  lemma {:induction false} UsersOfTail<V>(entries: seq<Entry<V>>, i: nat)
    requires Users(entries) && i <= |entries|
    ensures Users(entries[i..])
  {
    assert entries == entries[..i] + entries[i..];
    OrderOfSplit(entries[..i], entries[i..]);
  }

  lemma {:induction false} UsersPutLast<V>(entries: seq<Entry<V>>, last: Entry<V>)
    requires Users(entries) && forall e | e in entries :: e.user != last.user
    ensures Users(entries + [last])
  {
    if entries != [] {
      assert (entries + [last])[1..] == entries[1..] + [last];
      assert forall e | e in entries[1..] :: e in entries;
      assert entries[0] in entries;
      UsersPutLast(entries[1..], last);
    }
  }

  lemma RememberKeepsUsers<V>(entries: seq<Entry<V>>, e: Entry<V>)
    requires Users(entries)
    ensures Users(Remember(entries, e))
  {
    var i := SweepExactly(entries, e.at);
    UsersOfTail(entries, i);
    KeepUsers(entries[i..], OfUser(e.user));
    KeepMembers(entries[i..], OfUser(e.user));
    UsersPutLast(Without(entries[i..], e.user), e);
    NewestOrder(Without(entries[i..], e.user) + [e], CAPACITY);
  }

  /** A call leaves what the entries before it tell. */
  lemma RememberIsTold<V>(entries: seq<Entry<V>>, user: string, value: V, now: int)
    requires Users(entries)
    ensures RememberedAsTold(entries, user, value, now, Remember(entries, Entry(user, now, value)))
  {
    var i := SweepExactly(entries, now);
    UsersOfTail(entries, i);
    var rest := entries[i..];
    var j := WithoutExactly(rest, user);
    RememberUnfolds(entries, Entry(user, now, value), rest);
    CappedAs(entries, user, value, now, i, j, rest, Without(rest, user));
  }

  lemma RememberUnfolds<V>(entries: seq<Entry<V>>, e: Entry<V>, rest: seq<Entry<V>>)
    requires rest == Sweep(entries, e.at)
    ensures Remember(entries, e) == Newest(Without(rest, e.user) + [e], CAPACITY)
  {
  }

  lemma CappedAs<V>(before: seq<Entry<V>>, user: string, value: V, now: int, i: nat, j: nat, rest: seq<Entry<V>>,
                    others: seq<Entry<V>>)
    requires SweptTo(before, now, i) && rest == before[i..] && StandsAt(rest, user, j)
    requires others == if j < |rest| then rest[..j] + rest[j + 1..] else rest
    ensures RememberedAsTold(before, user, value, now, Newest(others + [Entry(user, now, value)], CAPACITY))
  {
    assert RememberedAs(before, user, value, now, i, j, Newest(others + [Entry(user, now, value)], CAPACITY));
  }

  // ------------------------------------------------------------ the object

  class Cache<V> {
    var entries: seq<Entry<V>>

    constructor ()
      ensures entries == []
    {
      entries := [];
    }

    method RememberMembership(user: string, value: V, now: int)
      modifies this
      ensures entries == Remember(old(entries), Entry(user, now, value))
      ensures Users(old(entries)) ==> Users(entries) && RememberedAsTold(old(entries), user, value, now, entries)
    {
      if Users(entries) {
        RememberKeepsUsers(entries, Entry(user, now, value));
        RememberIsTold(entries, user, value, now);
      }
      EvictExpired(now);
      entries := Without(entries, user) + [Entry(user, now, value)];
      EvictOldest();
    }

    /** Expired entries go from the front, up to the first that has not expired. */
    method EvictExpired(now: int)
      modifies this
      ensures entries == Sweep(old(entries), now)
    {
      while entries != [] && now - entries[0].at >= TTL_MS
        invariant Sweep(entries, now) == Sweep(old(entries), now)
        decreases |entries|
      {
        entries := entries[1..];
      }
    }

    /** The oldest entries go until the cap is met. */
    method EvictOldest()
      modifies this
      ensures entries == Newest(old(entries), CAPACITY)
    {
      while |entries| > CAPACITY
        invariant Newest(entries, CAPACITY) == Newest(old(entries), CAPACITY)
        decreases |entries|
      {
        NewestOfTail(entries, CAPACITY);
        entries := entries[1..];
      }
    }

    /** The cached read: an expired entry is never answered. */
    method Read(user: string, now: int) returns (value: Option<V>)
      ensures value.Some? <==> Find(entries, user).Some? && now - Find(entries, user).value.at < TTL_MS
      ensures value.Some? ==> value.value == Find(entries, user).value.value
      ensures forall k | 0 <= k < |entries| && entries[k].user == user
                         && (forall j | 0 <= j < k :: entries[j].user != user) ::
        value == if now - entries[k].at < 60_000 then Some(entries[k].value) else None
      ensures (forall k | 0 <= k < |entries| :: entries[k].user != user) ==> value == None
    {
      FindFirst(entries, user);
      var cached := Find(entries, user);
      if cached.Some? && now - cached.value.at < TTL_MS {
        return Some(cached.value.value);
      }
      value := None;
    }
  }
}
