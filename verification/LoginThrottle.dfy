/** The bounded login throttle (auth-throttle.ts). */
module LoginThrottle {
  import opened Arithmetic
  import opened Wrappers

  datatype Options = Options(maxAttempts: int, windowMs: int, lockoutMs: int, maxBuckets: nat)

  datatype Bucket = Bucket(failures: nat, windowStartedAt: int, lockedUntil: int, lastTouchedAt: int)

  datatype Slot = Slot(key: string, bucket: Bucket)

  /** A JavaScript Map as its entries in insertion order. */
  type Buckets = seq<Slot>

  datatype Decision = Decision(allowed: bool, retryAfterSeconds: nat)

  // ------------------------------------------------------------------ Map operations

  function IndexOf(m: Buckets, key: string): (i: nat)
    ensures i <= |m|
    ensures i < |m| ==> m[i].key == key
    ensures forall k :: 0 <= k < i ==> m[k].key != key
  {
    if m == [] || m[0].key == key then 0 else 1 + IndexOf(m[1..], key)
  }

  predicate Has(m: Buckets, key: string) {
    IndexOf(m, key) < |m|
  }

  function Get(m: Buckets, key: string): Bucket
    requires Has(m, key)
  {
    m[IndexOf(m, key)].bucket
  }

  function Set(m: Buckets, key: string, b: Bucket): Buckets {
    if Has(m, key) then m[IndexOf(m, key) := Slot(key, b)] else m + [Slot(key, b)]
  }

  function RemoveAt(m: Buckets, i: nat): Buckets
    requires i < |m|
  {
    m[..i] + m[i + 1..]
  }

  function Delete(m: Buckets, key: string): Buckets {
    if Has(m, key) then RemoveAt(m, IndexOf(m, key)) else m
  }

  ghost predicate Distinct(m: Buckets) {
    forall i, j :: 0 <= i < j < |m| ==> m[i].key != m[j].key
  }

  lemma AtIndex(m: Buckets, i: nat)
    requires Distinct(m) && i < |m|
    ensures IndexOf(m, m[i].key) == i
  {
  }

  lemma SetGet(m: Buckets, key: string, b: Bucket, other: string)
    requires Distinct(m)
    ensures Distinct(Set(m, key, b)) && Has(Set(m, key, b), key) && Get(Set(m, key, b), key) == b
    ensures other != key ==>
      (Has(Set(m, key, b), other) <==> Has(m, other))
      && (Has(m, other) ==> Get(Set(m, key, b), other) == Get(m, other))
  {
    var n := Set(m, key, b);
    var i := if Has(m, key) then IndexOf(m, key) else |m|;
    assert n[i] == Slot(key, b);
    AtIndex(n, i);
    if other != key && Has(m, other) {
      var j := IndexOf(m, other);
      assert n[j] == m[j];
      AtIndex(n, j);
    }
    if other != key && Has(n, other) {
      assert m[IndexOf(n, other)].key == other;
    }
  }

  lemma RemoveOne(m: Buckets, i: nat)
    requires Distinct(m) && i < |m|
    ensures Distinct(RemoveAt(m, i)) && !Has(RemoveAt(m, i), m[i].key)
  {
    var n := RemoveAt(m, i);
    assert forall k :: 0 <= k < |n| ==> n[k] == if k < i then m[k] else m[k + 1];
    assert forall k :: 0 <= k < |n| ==> n[k].key != m[i].key;
  }

  lemma RemoveGet(m: Buckets, i: nat, other: string)
    requires Distinct(m) && i < |m|
    ensures Distinct(RemoveAt(m, i)) && !Has(RemoveAt(m, i), m[i].key)
    ensures other != m[i].key ==>
      (Has(RemoveAt(m, i), other) <==> Has(m, other))
      && (Has(m, other) ==> Get(RemoveAt(m, i), other) == Get(m, other))
  {
    var n := RemoveAt(m, i);
    RemoveOne(m, i);
    if other != m[i].key && Has(m, other) {
      var j := IndexOf(m, other);
      var k := if j < i then j else j - 1;
      assert n[k] == m[j];
      AtIndex(n, k);
    }
    if Has(n, other) {
      var k := IndexOf(n, other);
      var j := if k < i then k else k + 1;
      assert m[j].key == other;
    }
  }

  // -------------------------------------------------------------------------- pruning

  predicate IsStale(o: Options, b: Bucket, now: int) {
    now - b.lastTouchedAt >= o.windowMs && b.lockedUntil <= now
  }

  function Expire(o: Options, m: Buckets, now: int): (r: Buckets)
    ensures |r| <= |m|
  {
    if m == [] then []
    else
      var n := |m| - 1;
      Expire(o, m[..n], now) + if IsStale(o, m[n].bucket, now) then [] else [m[n]]
  }

  /** Position of the least recently touched entry, the earliest inserted among equals. */
  function Oldest(m: Buckets): (i: nat)
    requires m != []
    ensures i < |m|
    ensures forall k :: 0 <= k < |m| ==> m[i].bucket.lastTouchedAt <= m[k].bucket.lastTouchedAt
    ensures forall k :: 0 <= k < i ==> m[i].bucket.lastTouchedAt < m[k].bucket.lastTouchedAt
  {
    if |m| == 1 then 0
    else
      var rest := 1 + Oldest(m[1..]);
      if m[0].bucket.lastTouchedAt <= m[rest].bucket.lastTouchedAt then 0 else rest
  }

  /** What happened to a key: a fresh bucket, a counted failure, or a capacity eviction. */
  datatype Mark = Born(key: string, at: int) | Failed(key: string, at: int) | Evicted(key: string)

  datatype Throttle = Throttle(buckets: Buckets, marks: seq<Mark>)

  function Evict(o: Options, t: Throttle): (r: Throttle)
    ensures |r.buckets| == Min(|t.buckets|, o.maxBuckets)
    decreases |t.buckets|
  {
    if |t.buckets| <= o.maxBuckets then t
    else
      var i := Oldest(t.buckets);
      Evict(o, Throttle(RemoveAt(t.buckets, i), t.marks + [Evicted(t.buckets[i].key)]))
  }

  function Prune(o: Options, t: Throttle, now: int): (r: Throttle)
    ensures |r.buckets| <= o.maxBuckets
  {
    Evict(o, t.(buckets := Expire(o, t.buckets, now)))
  }

  // --------------------------------------------------------------------------- calls

  predicate Current(o: Options, b: Bucket, now: int) {
    b.lockedUntil > now || now - b.windowStartedAt < o.windowMs
  }

  function FreshBucket(now: int): Bucket {
    Bucket(0, now, 0, now)
  }

  datatype Touched = Touched(throttle: Throttle, bucket: Bucket)

  /** The private `bucket` method. */
  function Touch(o: Options, t: Throttle, key: string, now: int): Touched {
    if Has(t.buckets, key) && Current(o, Get(t.buckets, key), now) then Touched(t, Get(t.buckets, key))
    else
      var born := Throttle(Set(t.buckets, key, FreshBucket(now)), t.marks + [Born(key, now)]);
      Touched(Prune(o, born, now), FreshBucket(now))
  }

  /** Whole seconds until the lock is over, zero when there is none. */
  function RetryAfter(b: Bucket, now: int): (seconds: nat)
    ensures seconds == 0 <==> b.lockedUntil <= now
    ensures seconds > 0 ==> (seconds - 1) * 1000 < b.lockedUntil - now <= seconds * 1000
  {
    if b.lockedUntil <= now then 0 else Max(1, CeilDiv(b.lockedUntil - now, 1000))
  }

  function Bumped(o: Options, b: Bucket, now: int): Bucket {
    var failures := b.failures + 1;
    Bucket(failures, b.windowStartedAt,
           if failures >= o.maxAttempts then Max(b.lockedUntil, now + o.lockoutMs) else b.lockedUntil, now)
  }

  /** One key of a recorded failure; a bucket evicted at birth is counted on the detached object only. */
  function FailOne(o: Options, t: Throttle, key: string, now: int): Touched {
    var touched := Touch(o, t, key, now);
    var b := Bumped(o, touched.bucket, now);
    var u := touched.throttle;
    var buckets := if Has(u.buckets, key) then Set(u.buckets, key, b) else u.buckets;
    Touched(Throttle(buckets, u.marks + [Failed(key, now)]), b)
  }

  datatype Keys = Keys(ip: string, identity: string, pair: string)

  datatype Answer = Answer(throttle: Throttle, decision: Decision)

  function Decide(retry: nat): Decision {
    Decision(retry == 0, retry)
  }

  function Check(o: Options, t: Throttle, k: Keys, now: int): Answer {
    var a := Touch(o, t, k.ip, now);
    var b := Touch(o, a.throttle, k.identity, now);
    var c := Touch(o, b.throttle, k.pair, now);
    Answer(c.throttle,
           Decide(Max(RetryAfter(a.bucket, now), Max(RetryAfter(b.bucket, now), RetryAfter(c.bucket, now)))))
  }

  function RecordFailure(o: Options, t: Throttle, k: Keys, now: int): Answer {
    var a := FailOne(o, t, k.ip, now);
    var b := FailOne(o, a.throttle, k.identity, now);
    var c := FailOne(o, b.throttle, k.pair, now);
    Answer(Prune(o, c.throttle, now),
           Decide(Max(RetryAfter(a.bucket, now), Max(RetryAfter(b.bucket, now), RetryAfter(c.bucket, now)))))
  }

  function RecordSuccess(t: Throttle, k: Keys): Throttle {
    t.(buckets := Delete(Delete(Delete(t.buckets, k.ip), k.identity), k.pair))
  }

  // ------------------------------------------------------------------- bookkeeping

  /** Failures of a key since its bucket was last created, when that was, and when its latest failure was. */
  datatype Record = Record(failures: nat, bornAt: Option<int>, failedAt: Option<int>)

  function RecordOf(marks: seq<Mark>, key: string): Record {
    if marks == [] then Record(0, None, None)
    else
      var before, last := RecordOf(marks[..|marks| - 1], key), marks[|marks| - 1];
      if last.key != key then before
      else
        match last
        case Born(_, at) => Record(0, Some(at), before.failedAt)
        case Failed(_, at) => Record(before.failures + 1, before.bornAt, Some(at))
        case Evicted(_) => before
  }

  lemma NextRecord(marks: seq<Mark>, mark: Mark, key: string)
    ensures mark.Evicted? || mark.key != key ==> RecordOf(marks + [mark], key) == RecordOf(marks, key)
    ensures mark.Born? && mark.key == key ==>
      RecordOf(marks + [mark], key) == Record(0, Some(mark.at), RecordOf(marks, key).failedAt)
    ensures mark.Failed? && mark.key == key ==>
      RecordOf(marks + [mark], key) ==
        Record(RecordOf(marks, key).failures + 1, RecordOf(marks, key).bornAt, Some(mark.at))
  {
    assert (marks + [mark])[..|marks|] == marks;
  }

  predicate Good(o: Options, b: Bucket, marks: seq<Mark>, key: string) {
    && RecordOf(marks, key).failures == b.failures && RecordOf(marks, key).bornAt == Some(b.windowStartedAt)
    && (b.failures > 0 ==> RecordOf(marks, key).failedAt == Some(b.lastTouchedAt))
    && (b.failures > 0 && b.failures >= o.maxAttempts ==> b.lockedUntil >= b.lastTouchedAt + o.lockoutMs)
  }

  ghost predicate Sound(o: Options, t: Throttle) {
    Distinct(t.buckets) && forall key :: Has(t.buckets, key) ==> Good(o, Get(t.buckets, key), t.marks, key)
  }

  /** Entries may have gone, but those left are unchanged. */
  ghost predicate SubMap(m': Buckets, m: Buckets) {
    Distinct(m') && forall key :: Has(m', key) ==> Has(m, key) && Get(m', key) == Get(m, key)
  }

  lemma {:induction false} ExpireSub(o: Options, m: Buckets, now: int)
    requires Distinct(m)
    ensures SubMap(Expire(o, m, now), m)
    ensures forall key :: Has(m, key) ==> (Has(Expire(o, m, now), key) <==> !IsStale(o, Get(m, key), now))
  {
    if m != [] {
      var n := |m| - 1;
      var last := m[n];
      ExpireSub(o, m[..n], now);
      InitGet(m);
      var e := Expire(o, m[..n], now);
      assert !Has(e, last.key);
      if IsStale(o, last.bucket, now) {
        assert Expire(o, m, now) == e;
      } else {
        assert Expire(o, m, now) == e + [last];
        AppendGet(e, last);
      }
    }
  }

  lemma InitGet(m: Buckets)
    requires Distinct(m) && m != []
    ensures var n := |m| - 1;
      && Distinct(m[..n]) && !Has(m[..n], m[n].key) && Has(m, m[n].key) && Get(m, m[n].key) == m[n].bucket
      && forall key :: key != m[n].key ==>
           (Has(m, key) <==> Has(m[..n], key)) && (Has(m, key) ==> Get(m, key) == Get(m[..n], key))
  {
    var n := |m| - 1;
    assert m == m[..n] + [m[n]];
    AppendGet(m[..n], m[n]);
  }

  lemma AppendGet(m: Buckets, last: Slot)
    requires Distinct(m) && !Has(m, last.key)
    ensures var r := m + [last];
      && Distinct(r) && Has(r, last.key) && Get(r, last.key) == last.bucket
      && forall key :: key != last.key ==>
           (Has(r, key) <==> Has(m, key)) && (Has(r, key) ==> Get(r, key) == Get(m, key))
  {
    forall key: string
      ensures key != last.key ==> (Has(m + [last], key) <==> Has(m, key))
      ensures key != last.key && Has(m, key) ==> Get(m + [last], key) == Get(m, key)
    {
      SetGet(m, last.key, last.bucket, key);
    }
    SetGet(m, last.key, last.bucket, last.key);
  }

  lemma {:induction false} EvictSub(o: Options, t: Throttle)
    requires Distinct(t.buckets)
    ensures var r := Evict(o, t);
      && SubMap(r.buckets, t.buckets) && t.marks <= r.marks
      && (forall key :: Has(t.buckets, key) && !Has(r.buckets, key) ==> Evicted(key) in r.marks[|t.marks|..])
      && (forall key :: RecordOf(r.marks, key) == RecordOf(t.marks, key))
    decreases |t.buckets|
  {
    if |t.buckets| > o.maxBuckets {
      var i := Oldest(t.buckets);
      var gone := t.buckets[i].key;
      var u := Throttle(RemoveAt(t.buckets, i), t.marks + [Evicted(gone)]);
      forall key
        ensures key != gone ==> (Has(u.buckets, key) <==> Has(t.buckets, key))
        ensures Has(u.buckets, key) ==> Has(t.buckets, key) && Get(u.buckets, key) == Get(t.buckets, key)
        ensures RecordOf(u.marks, key) == RecordOf(t.marks, key)
      {
        NextRecord(t.marks, Evicted(gone), key);
        RemoveGet(t.buckets, i, key);
      }
      RemoveGet(t.buckets, i, gone);
      EvictSub(o, u);
      var r := Evict(o, t);
      assert u.marks[..|t.marks|] == t.marks;
      assert r.marks[|t.marks|] == Evicted(gone);
      assert r.marks[|t.marks|..][1..] == r.marks[|u.marks|..];
    }
  }

  // ------------------------------------------------------- what every step keeps

  /** `r` keeps every entry of `t` unchanged except by eviction, which it marks, or expiry of an unlocked one. */
  lemma PruneSub(o: Options, t: Throttle, now: int)
    requires Distinct(t.buckets)
    ensures var r := Prune(o, t, now);
      && SubMap(r.buckets, t.buckets) && t.marks <= r.marks
      && (forall key :: Has(t.buckets, key) && Get(t.buckets, key).lockedUntil > now && !Has(r.buckets, key) ==>
            Evicted(key) in r.marks[|t.marks|..])
      && (forall key :: RecordOf(r.marks, key) == RecordOf(t.marks, key))
  {
    ExpireSub(o, t.buckets, now);
    EvictSub(o, t.(buckets := Expire(o, t.buckets, now)));
  }

  lemma PruneKeepsSound(o: Options, t: Throttle, now: int)
    requires Sound(o, t)
    ensures Sound(o, Prune(o, t, now))
  {
    PruneSub(o, t, now);
  }

  lemma BirthKeepsSound(o: Options, t: Throttle, key: string, now: int)
    requires Sound(o, t)
    ensures Sound(o, Throttle(Set(t.buckets, key, FreshBucket(now)), t.marks + [Born(key, now)]))
  {
    var u := Throttle(Set(t.buckets, key, FreshBucket(now)), t.marks + [Born(key, now)]);
    forall k | Has(u.buckets, k)
      ensures Good(o, Get(u.buckets, k), u.marks, k)
    {
      NextRecord(t.marks, Born(key, now), k);
      SetGet(t.buckets, key, FreshBucket(now), k);
    }
    SetGet(t.buckets, key, FreshBucket(now), key);
  }

  /** A touched bucket that is still in the map is the one handed out, and it matches the record. */
  lemma TouchKeepsSound(o: Options, t: Throttle, key: string, now: int)
    requires Sound(o, t)
    ensures var r := Touch(o, t, key, now);
      && Sound(o, r.throttle)
      && (Has(r.throttle.buckets, key) ==> Get(r.throttle.buckets, key) == r.bucket)
  {
    if !(Has(t.buckets, key) && Current(o, Get(t.buckets, key), now)) {
      var born := Throttle(Set(t.buckets, key, FreshBucket(now)), t.marks + [Born(key, now)]);
      BirthKeepsSound(o, t, key, now);
      SetGet(t.buckets, key, FreshBucket(now), key);
      PruneKeepsSound(o, born, now);
      PruneSub(o, born, now);
    }
  }

  lemma FailOneKeepsSound(o: Options, t: Throttle, key: string, now: int)
    requires Sound(o, t)
    ensures Sound(o, FailOne(o, t, key, now).throttle)
  {
    TouchKeepsSound(o, t, key, now);
    var touched := Touch(o, t, key, now);
    var u := touched.throttle;
    var b := Bumped(o, touched.bucket, now);
    var r := FailOne(o, t, key, now).throttle;
    forall k | Has(r.buckets, k)
      ensures Good(o, Get(r.buckets, k), r.marks, k)
    {
      NextRecord(u.marks, Failed(key, now), k);
      SetGet(u.buckets, key, b, k);
    }
    SetGet(u.buckets, key, b, key);
  }

  lemma DeleteKeepsSound(o: Options, t: Throttle, key: string)
    requires Sound(o, t)
    ensures Sound(o, t.(buckets := Delete(t.buckets, key)))
  {
    if Has(t.buckets, key) {
      var i := IndexOf(t.buckets, key);
      var m := Delete(t.buckets, key);
      forall k | Has(m, k)
        ensures Good(o, Get(m, k), t.marks, k)
      {
        RemoveGet(t.buckets, i, k);
      }
      RemoveGet(t.buckets, i, key);
    }
  }

  // ------------------------------------------------------------------------ runs

  datatype Event = CheckCall(keys: Keys, now: int) | FailureCall(keys: Keys, now: int) | SuccessCall(keys: Keys)

  function Do(o: Options, t: Throttle, e: Event): Throttle {
    match e
    case CheckCall(k, now) => Check(o, t, k, now).throttle
    case FailureCall(k, now) => RecordFailure(o, t, k, now).throttle
    case SuccessCall(k) => RecordSuccess(t, k)
  }

  function Run(o: Options, t: Throttle, events: seq<Event>): Throttle {
    if events == [] then t else Do(o, Run(o, t, events[..|events| - 1]), events[|events| - 1])
  }

  const EMPTY := Throttle([], [])

  lemma DoKeepsSound(o: Options, t: Throttle, e: Event)
    requires Sound(o, t)
    ensures Sound(o, Do(o, t, e))
  {
    match e
    case CheckCall(k, now) =>
      TouchKeepsSound(o, t, k.ip, now);
      var a := Touch(o, t, k.ip, now).throttle;
      TouchKeepsSound(o, a, k.identity, now);
      TouchKeepsSound(o, Touch(o, a, k.identity, now).throttle, k.pair, now);
    case FailureCall(k, now) =>
      FailOneKeepsSound(o, t, k.ip, now);
      var a := FailOne(o, t, k.ip, now).throttle;
      FailOneKeepsSound(o, a, k.identity, now);
      var b := FailOne(o, a, k.identity, now).throttle;
      FailOneKeepsSound(o, b, k.pair, now);
      PruneKeepsSound(o, FailOne(o, b, k.pair, now).throttle, now);
    case SuccessCall(k) =>
      DeleteKeepsSound(o, t, k.ip);
      var a := t.(buckets := Delete(t.buckets, k.ip));
      DeleteKeepsSound(o, a, k.identity);
      DeleteKeepsSound(o, a.(buckets := Delete(a.buckets, k.identity)), k.pair);
  }

  lemma TouchSize(o: Options, t: Throttle, key: string, now: int)
    requires |t.buckets| <= o.maxBuckets
    ensures |Touch(o, t, key, now).throttle.buckets| <= o.maxBuckets
  {
  }

  lemma DoKeepsSize(o: Options, t: Throttle, e: Event)
    requires |t.buckets| <= o.maxBuckets
    ensures |Do(o, t, e).buckets| <= o.maxBuckets
  {
    match e
    case CheckCall(k, now) =>
      TouchSize(o, t, k.ip, now);
      var a := Touch(o, t, k.ip, now).throttle;
      TouchSize(o, a, k.identity, now);
      TouchSize(o, Touch(o, a, k.identity, now).throttle, k.pair, now);
    case FailureCall(_, _) =>
    case SuccessCall(_) =>
  }

  /** After any calls: never more than maxBuckets, and every bucket counts exactly the failures since it was created. */
  lemma {:induction false} BucketsAreExact(o: Options, events: seq<Event>)
    ensures Sound(o, Run(o, EMPTY, events)) && |Run(o, EMPTY, events).buckets| <= o.maxBuckets
  {
    if events != [] {
      var before := events[..|events| - 1];
      BucketsAreExact(o, before);
      DoKeepsSound(o, Run(o, EMPTY, before), events[|events| - 1]);
      DoKeepsSize(o, Run(o, EMPTY, before), events[|events| - 1]);
    }
  }

  // --------------------------------------------------------------------- lockout

  predicate LockedUntil(t: Throttle, key: string, until: int) {
    Has(t.buckets, key) && Get(t.buckets, key).lockedUntil >= until
  }

  /** The lock survives, or the capacity bound evicted the key on the way from `t` to `r`. */
  ghost predicate HeldOrEvicted(t: Throttle, r: Throttle, key: string, until: int) {
    t.marks <= r.marks && (LockedUntil(r, key, until) || Evicted(key) in r.marks[|t.marks|..])
  }

  lemma HoldTwice(t: Throttle, u: Throttle, r: Throttle, key: string, until: int)
    requires HeldOrEvicted(t, u, key, until)
    requires u.marks <= r.marks && (LockedUntil(u, key, until) ==> HeldOrEvicted(u, r, key, until))
    ensures HeldOrEvicted(t, r, key, until)
  {
    assert r.marks[|t.marks|..] == u.marks[|t.marks|..] + r.marks[|u.marks|..];
  }

  lemma MarksGrow(o: Options, t: Throttle, key: string, now: int)
    requires Sound(o, t)
    ensures t.marks <= Touch(o, t, key, now).throttle.marks
    ensures t.marks <= FailOne(o, t, key, now).throttle.marks
  {
    SetGet(t.buckets, key, FreshBucket(now), key);
    PruneSub(o, Throttle(Set(t.buckets, key, FreshBucket(now)), t.marks + [Born(key, now)]), now);
  }

  /** Touching a locked key returns its bucket; touching another key can only evict it. */
  lemma TouchHolds(o: Options, t: Throttle, key: string, now: int, locked: string, until: int)
    requires Sound(o, t) && now < until && LockedUntil(t, locked, until)
    ensures HeldOrEvicted(t, Touch(o, t, key, now).throttle, locked, until)
    ensures key == locked ==> Touch(o, t, key, now) == Touched(t, Get(t.buckets, key))
  {
    MarksGrow(o, t, key, now);
    if key != locked && !(Has(t.buckets, key) && Current(o, Get(t.buckets, key), now)) {
      var born := Throttle(Set(t.buckets, key, FreshBucket(now)), t.marks + [Born(key, now)]);
      SetGet(t.buckets, key, FreshBucket(now), locked);
      PruneSub(o, born, now);
      var r := Prune(o, born, now);
      assert r.marks[|t.marks|..][1..] == r.marks[|born.marks|..];
    }
  }

  /** Counting a failure unlocks nothing. */
  lemma CountHolds(o: Options, u: Throttle, key: string, bucket: Bucket, now: int, locked: string, until: int)
    requires Distinct(u.buckets) && LockedUntil(u, locked, until)
    requires Has(u.buckets, key) ==> Get(u.buckets, key) == bucket
    ensures var buckets := if Has(u.buckets, key) then Set(u.buckets, key, Bumped(o, bucket, now)) else u.buckets;
      LockedUntil(Throttle(buckets, u.marks + [Failed(key, now)]), locked, until)
  {
    SetGet(u.buckets, key, Bumped(o, bucket, now), locked);
  }

  lemma FailOneHolds(o: Options, t: Throttle, key: string, now: int, locked: string, until: int)
    requires Sound(o, t) && now < until && LockedUntil(t, locked, until)
    ensures HeldOrEvicted(t, FailOne(o, t, key, now).throttle, locked, until)
  {
    TouchHolds(o, t, key, now, locked, until);
    TouchKeepsSound(o, t, key, now);
    var touched := Touch(o, t, key, now);
    if LockedUntil(touched.throttle, locked, until) {
      CountHolds(o, touched.throttle, key, touched.bucket, now, locked, until);
    }
    HoldTwice(t, touched.throttle, FailOne(o, t, key, now).throttle, locked, until);
  }

  lemma PruneHolds(o: Options, t: Throttle, now: int, locked: string, until: int)
    requires Sound(o, t) && now < until && LockedUntil(t, locked, until)
    ensures HeldOrEvicted(t, Prune(o, t, now), locked, until)
  {
    PruneSub(o, t, now);
  }

  lemma FailedCallHolds(o: Options, t: Throttle, k: Keys, now: int, locked: string, until: int)
    requires Sound(o, t) && now < until && LockedUntil(t, locked, until)
    ensures HeldOrEvicted(t, RecordFailure(o, t, k, now).throttle, locked, until)
  {
    var a := FailOne(o, t, k.ip, now).throttle;
    var b := FailOne(o, a, k.identity, now).throttle;
    var c := FailOne(o, b, k.pair, now).throttle;
    FailOneKeepsSound(o, t, k.ip, now);
    FailOneKeepsSound(o, a, k.identity, now);
    FailOneKeepsSound(o, b, k.pair, now);
    FailOneHolds(o, t, k.ip, now, locked, until);
    MarksGrow(o, a, k.identity, now);
    if LockedUntil(a, locked, until) { FailOneHolds(o, a, k.identity, now, locked, until); }
    HoldTwice(t, a, b, locked, until);
    MarksGrow(o, b, k.pair, now);
    if LockedUntil(b, locked, until) { FailOneHolds(o, b, k.pair, now, locked, until); }
    HoldTwice(t, b, c, locked, until);
    PruneSub(o, c, now);
    if LockedUntil(c, locked, until) { PruneHolds(o, c, now, locked, until); }
    HoldTwice(t, c, Prune(o, c, now), locked, until);
  }

  predicate Names(k: Keys, key: string) {
    key == k.ip || key == k.identity || key == k.pair
  }

  lemma CheckHolds(o: Options, t: Throttle, k: Keys, now: int, locked: string, until: int)
    requires Sound(o, t) && now < until && LockedUntil(t, locked, until)
    ensures var a := Touch(o, t, k.ip, now).throttle; var b := Touch(o, a, k.identity, now).throttle;
      && Sound(o, a) && Sound(o, b) && a.marks <= b.marks <= Check(o, t, k, now).throttle.marks
      && HeldOrEvicted(t, a, locked, until) && HeldOrEvicted(t, b, locked, until)
      && HeldOrEvicted(t, Check(o, t, k, now).throttle, locked, until)
  {
    var a := Touch(o, t, k.ip, now).throttle;
    var b := Touch(o, a, k.identity, now).throttle;
    var c := Touch(o, b, k.pair, now).throttle;
    TouchKeepsSound(o, t, k.ip, now);
    TouchKeepsSound(o, a, k.identity, now);
    TouchHolds(o, t, k.ip, now, locked, until);
    MarksGrow(o, a, k.identity, now);
    if LockedUntil(a, locked, until) { TouchHolds(o, a, k.identity, now, locked, until); }
    HoldTwice(t, a, b, locked, until);
    MarksGrow(o, b, k.pair, now);
    if LockedUntil(b, locked, until) { TouchHolds(o, b, k.pair, now, locked, until); }
    HoldTwice(t, b, c, locked, until);
  }

  lemma TouchWaits(o: Options, t: Throttle, key: string, now: int, until: int)
    requires Sound(o, t) && now < until && LockedUntil(t, key, until)
    ensures RetryAfter(Touch(o, t, key, now).bucket, now) * 1000 >= until - now
  {
    TouchHolds(o, t, key, now, key, until);
  }

  lemma NotEvictedEarlier(t: Throttle, u: Throttle, r: Throttle, key: string)
    requires t.marks <= u.marks <= r.marks && Evicted(key) !in r.marks[|t.marks|..]
    ensures Evicted(key) !in u.marks[|t.marks|..]
  {
    assert u.marks[|t.marks|..] <= r.marks[|t.marks|..];
  }

  /**
   * A check that names a locked key is refused for at least as long as the lock lasts, unless it evicts the key
   * itself.
   */
  lemma CheckRefuses(o: Options, t: Throttle, k: Keys, now: int, locked: string, until: int)
    requires Sound(o, t) && now < until && LockedUntil(t, locked, until) && Names(k, locked)
    ensures var r := Check(o, t, k, now);
      && t.marks <= r.throttle.marks
      && (Evicted(locked) !in r.throttle.marks[|t.marks|..] ==>
            !r.decision.allowed && r.decision.retryAfterSeconds * 1000 >= until - now)
  {
    var a := Touch(o, t, k.ip, now).throttle;
    var b := Touch(o, a, k.identity, now).throttle;
    var r := Check(o, t, k, now).throttle;
    CheckHolds(o, t, k, now, locked, until);
    if Evicted(locked) !in r.marks[|t.marks|..] {
      NotEvictedEarlier(t, a, r, locked);
      NotEvictedEarlier(t, b, r, locked);
      if locked == k.ip {
        TouchWaits(o, t, locked, now, until);
      } else if locked == k.identity {
        TouchWaits(o, a, locked, now, until);
      } else {
        TouchWaits(o, b, locked, now, until);
      }
    }
  }

  predicate Harmless(e: Event, locked: string, until: int) {
    match e
    case CheckCall(_, now) => now < until
    case FailureCall(_, now) => now < until
    case SuccessCall(k) => !Names(k, locked)
  }

  lemma SuccessHolds(o: Options, t: Throttle, k: Keys, locked: string, until: int)
    requires Sound(o, t) && LockedUntil(t, locked, until) && !Names(k, locked)
    ensures HeldOrEvicted(t, RecordSuccess(t, k), locked, until)
  {
    var a := t.(buckets := Delete(t.buckets, k.ip));
    var b := a.(buckets := Delete(a.buckets, k.identity));
    DeleteKeepsSound(o, t, k.ip);
    DeleteKeepsSound(o, a, k.identity);
    DeleteOther(t.buckets, k.ip, locked);
    DeleteOther(a.buckets, k.identity, locked);
    DeleteOther(b.buckets, k.pair, locked);
  }

  lemma DeleteOther(m: Buckets, key: string, other: string)
    requires Distinct(m) && key != other
    ensures Has(Delete(m, key), other) <==> Has(m, other)
    ensures Has(m, other) ==> Get(Delete(m, key), other) == Get(m, other)
  {
    if Has(m, key) {
      RemoveGet(m, IndexOf(m, key), other);
    }
  }

  lemma EventHolds(o: Options, t: Throttle, e: Event, locked: string, until: int)
    requires Sound(o, t) && Harmless(e, locked, until)
    ensures t.marks <= Do(o, t, e).marks
    ensures LockedUntil(t, locked, until) ==> HeldOrEvicted(t, Do(o, t, e), locked, until)
  {
    match e
    case CheckCall(k, now) =>
      var a := Touch(o, t, k.ip, now).throttle;
      MarksGrow(o, t, k.ip, now);
      TouchKeepsSound(o, t, k.ip, now);
      MarksGrow(o, a, k.identity, now);
      TouchKeepsSound(o, a, k.identity, now);
      MarksGrow(o, Touch(o, a, k.identity, now).throttle, k.pair, now);
      if LockedUntil(t, locked, until) { CheckHolds(o, t, k, now, locked, until); }
    case FailureCall(k, now) =>
      var a := FailOne(o, t, k.ip, now).throttle;
      var b := FailOne(o, a, k.identity, now).throttle;
      MarksGrow(o, t, k.ip, now);
      FailOneKeepsSound(o, t, k.ip, now);
      MarksGrow(o, a, k.identity, now);
      FailOneKeepsSound(o, a, k.identity, now);
      MarksGrow(o, b, k.pair, now);
      FailOneKeepsSound(o, b, k.pair, now);
      PruneSub(o, FailOne(o, b, k.pair, now).throttle, now);
      if LockedUntil(t, locked, until) { FailedCallHolds(o, t, k, now, locked, until); }
    case SuccessCall(k) =>
      if LockedUntil(t, locked, until) { SuccessHolds(o, t, k, locked, until); }
  }

  /** Over any run before the lock ends, only a success for the key or a marked capacity eviction can lift it. */
  lemma {:induction false} LockHolds(o: Options, t: Throttle, events: seq<Event>, locked: string, until: int)
    requires Sound(o, t) && LockedUntil(t, locked, until)
    requires forall i :: 0 <= i < |events| ==> Harmless(events[i], locked, until)
    ensures Sound(o, Run(o, t, events)) && HeldOrEvicted(t, Run(o, t, events), locked, until)
  {
    if events != [] {
      var before := events[..|events| - 1];
      LockHolds(o, t, before, locked, until);
      var u := Run(o, t, before);
      EventHolds(o, u, events[|events| - 1], locked, until);
      DoKeepsSound(o, u, events[|events| - 1]);
      HoldTwice(t, u, Run(o, t, events), locked, until);
    }
  }

  /** A bucket that has counted maxAttempts failures is locked for lockoutMs after the last of them. */
  lemma EnoughFailuresLock(o: Options, events: seq<Event>, key: string)
    requires Has(Run(o, EMPTY, events).buckets, key)
    requires RecordOf(Run(o, EMPTY, events).marks, key).failures >= Max(1, o.maxAttempts)
    ensures var t := Run(o, EMPTY, events); var failedAt := RecordOf(t.marks, key).failedAt;
      failedAt.Some? && LockedUntil(t, key, failedAt.value + o.lockoutMs)
  {
    BucketsAreExact(o, events);
    assert Good(o, Get(Run(o, EMPTY, events).buckets, key), Run(o, EMPTY, events).marks, key);
  }

  // ------------------------------------------------- exactly when a key is locked

  /** The time of the last call that has one. */
  function Clock(start: int, events: seq<Event>): int {
    if events == [] then start
    else
      match events[|events| - 1]
      case CheckCall(_, now) => now
      case FailureCall(_, now) => now
      case SuccessCall(_) => Clock(start, events[..|events| - 1])
  }

  /** The clock never goes back. */
  predicate InTime(start: int, events: seq<Event>) {
    events == [] ||
    (InTime(start, events[..|events| - 1]) && Clock(start, events[..|events| - 1]) <= Clock(start, events))
  }

  /** Locked by its latest failure if it has counted enough of them, and not locked at all if it has not. */
  predicate Timely(o: Options, b: Bucket, now: int) {
    && b.windowStartedAt <= b.lastTouchedAt <= now
    && b.lockedUntil == if b.failures >= Max(1, o.maxAttempts) then Max(0, b.lastTouchedAt + o.lockoutMs) else 0
  }

  ghost predicate AllTimely(o: Options, m: Buckets, now: int) {
    forall key :: Has(m, key) ==> Timely(o, Get(m, key), now)
  }

  lemma SetTimely(o: Options, m: Buckets, key: string, b: Bucket, now: int)
    requires Distinct(m) && AllTimely(o, m, now) && Timely(o, b, now)
    ensures AllTimely(o, Set(m, key, b), now)
  {
    forall k | Has(Set(m, key, b), k)
      ensures Timely(o, Get(Set(m, key, b), k), now)
    {
      SetGet(m, key, b, k);
    }
  }

  lemma TouchTimely(o: Options, t: Throttle, key: string, before: int, now: int)
    requires Sound(o, t) && AllTimely(o, t.buckets, before) && before <= now
    ensures AllTimely(o, Touch(o, t, key, now).throttle.buckets, now) && Timely(o, Touch(o, t, key, now).bucket, now)
  {
    assert AllTimely(o, t.buckets, now);
    if !(Has(t.buckets, key) && Current(o, Get(t.buckets, key), now)) {
      SetTimely(o, t.buckets, key, FreshBucket(now), now);
      SetGet(t.buckets, key, FreshBucket(now), key);
      PruneSub(o, Throttle(Set(t.buckets, key, FreshBucket(now)), t.marks + [Born(key, now)]), now);
    }
  }

  lemma FailOneTimely(o: Options, t: Throttle, key: string, before: int, now: int)
    requires Sound(o, t) && AllTimely(o, t.buckets, before) && before <= now
    ensures AllTimely(o, FailOne(o, t, key, now).throttle.buckets, now)
  {
    var touched := Touch(o, t, key, now);
    TouchTimely(o, t, key, before, now);
    TouchKeepsSound(o, t, key, now);
    SetTimely(o, touched.throttle.buckets, key, Bumped(o, touched.bucket, now), now);
  }

  lemma DeleteTimely(o: Options, m: Buckets, key: string, now: int)
    requires Distinct(m) && AllTimely(o, m, now)
    ensures Distinct(Delete(m, key)) && AllTimely(o, Delete(m, key), now)
  {
    if Has(m, key) {
      forall k | Has(Delete(m, key), k)
        ensures Timely(o, Get(Delete(m, key), k), now)
      {
        RemoveGet(m, IndexOf(m, key), k);
      }
      RemoveGet(m, IndexOf(m, key), key);
    }
  }

  lemma CheckTimely(o: Options, t: Throttle, k: Keys, before: int, now: int)
    requires Sound(o, t) && AllTimely(o, t.buckets, before) && before <= now
    ensures AllTimely(o, Check(o, t, k, now).throttle.buckets, now)
  {
    var a := Touch(o, t, k.ip, now).throttle;
    TouchTimely(o, t, k.ip, before, now);
    TouchKeepsSound(o, t, k.ip, now);
    TouchTimely(o, a, k.identity, now, now);
    TouchKeepsSound(o, a, k.identity, now);
    TouchTimely(o, Touch(o, a, k.identity, now).throttle, k.pair, now, now);
  }

  lemma FailureTimely(o: Options, t: Throttle, k: Keys, before: int, now: int)
    requires Sound(o, t) && AllTimely(o, t.buckets, before) && before <= now
    ensures AllTimely(o, RecordFailure(o, t, k, now).throttle.buckets, now)
  {
    var a := FailOne(o, t, k.ip, now).throttle;
    var b := FailOne(o, a, k.identity, now).throttle;
    FailOneTimely(o, t, k.ip, before, now);
    FailOneKeepsSound(o, t, k.ip, now);
    FailOneTimely(o, a, k.identity, now, now);
    FailOneKeepsSound(o, a, k.identity, now);
    FailOneTimely(o, b, k.pair, now, now);
    FailOneKeepsSound(o, b, k.pair, now);
    PruneSub(o, FailOne(o, b, k.pair, now).throttle, now);
  }

  lemma {:induction false} RunTimely(o: Options, start: int, events: seq<Event>)
    requires InTime(start, events)
    ensures AllTimely(o, Run(o, EMPTY, events).buckets, Clock(start, events))
  {
    if events != [] {
      var init := events[..|events| - 1];
      var t := Run(o, EMPTY, init);
      RunTimely(o, start, init);
      BucketsAreExact(o, init);
      match events[|events| - 1]
      case CheckCall(k, now) => CheckTimely(o, t, k, Clock(start, init), now);
      case FailureCall(k, now) => FailureTimely(o, t, k, Clock(start, init), now);
      case SuccessCall(k) =>
        DeleteTimely(o, t.buckets, k.ip, Clock(start, init));
        DeleteTimely(o, Delete(t.buckets, k.ip), k.identity, Clock(start, init));
        DeleteTimely(o, Delete(Delete(t.buckets, k.ip), k.identity), k.pair, Clock(start, init));
    }
  }

  /** By its record alone: the key has a bucket, has failed often enough since, and the lockout is not over. */
  predicate Locked(o: Options, t: Throttle, key: string, now: int) {
    var record := RecordOf(t.marks, key);
    && Has(t.buckets, key) && record.failures >= Max(1, o.maxAttempts)
    && record.failedAt.Some? && now < record.failedAt.value + o.lockoutMs
  }

  lemma LockedByRecord(o: Options, t: Throttle, key: string, last: int, now: int)
    requires Sound(o, t) && AllTimely(o, t.buckets, last) && 0 <= now
    ensures Locked(o, t, key, now) <==> Has(t.buckets, key) && Get(t.buckets, key).lockedUntil > now
    ensures Locked(o, t, key, now) ==>
      Get(t.buckets, key).lockedUntil == RecordOf(t.marks, key).failedAt.value + o.lockoutMs
  {
    if Has(t.buckets, key) {
      assert Good(o, Get(t.buckets, key), t.marks, key) && Timely(o, Get(t.buckets, key), last);
    }
  }

  /** When the bucket's lock ends, by the record of its key: zero stands for no lock. */
  ghost predicate LockFitsRecord(o: Options, t: Throttle, key: string)
    requires Has(t.buckets, key)
  {
    var record := RecordOf(t.marks, key);
    && (record.failures > 0 ==> record.failedAt.Some?)
    && Get(t.buckets, key).lockedUntil ==
         if record.failures >= 1 && record.failures >= o.maxAttempts then Max(0, record.failedAt.value + o.lockoutMs)
         else 0
  }

  lemma TimelyFitsRecord(o: Options, t: Throttle, key: string, now: int)
    requires Sound(o, t) && AllTimely(o, t.buckets, now) && Has(t.buckets, key)
    ensures LockFitsRecord(o, t, key)
  {
    assert Good(o, Get(t.buckets, key), t.marks, key) && Timely(o, Get(t.buckets, key), now);
  }

  /** A bucket is locked until lockoutMs after its latest failure if it has counted enough, and else not at all. */
  lemma LocksAreExact(o: Options, start: int, events: seq<Event>, key: string)
    requires InTime(start, events) && Has(Run(o, EMPTY, events).buckets, key)
    ensures LockFitsRecord(o, Run(o, EMPTY, events), key)
  {
    BucketsAreExact(o, events);
    RunTimely(o, start, events);
    TimelyFitsRecord(o, Run(o, EMPTY, events), key, Clock(start, events));
  }

  /** No bucket of the key, or one that is locked until `until` at most. */
  predicate OpenAt(m: Buckets, key: string, until: int) {
    Has(m, key) ==> Get(m, key).lockedUntil <= until
  }

  /** Touching any key locks nothing. */
  lemma TouchLocksNothing(o: Options, t: Throttle, key: string, now: int, other: string, until: int)
    requires Sound(o, t) && 0 <= until && OpenAt(t.buckets, other, until)
    ensures OpenAt(Touch(o, t, key, now).throttle.buckets, other, until)
    ensures key == other ==> Touch(o, t, key, now).bucket.lockedUntil <= until
  {
    if !(Has(t.buckets, key) && Current(o, Get(t.buckets, key), now)) {
      SetGet(t.buckets, key, FreshBucket(now), other);
      SetGet(t.buckets, key, FreshBucket(now), key);
      PruneSub(o, Throttle(Set(t.buckets, key, FreshBucket(now)), t.marks + [Born(key, now)]), now);
    }
  }

  /** A check waits no longer than until its three keys are open, and not at all when they are. */
  lemma CheckWaits(o: Options, t: Throttle, k: Keys, now: int, until: int)
    requires Sound(o, t) && 0 <= now <= until
    requires OpenAt(t.buckets, k.ip, until) && OpenAt(t.buckets, k.identity, until) && OpenAt(t.buckets, k.pair, until)
    ensures var d := Check(o, t, k, now).decision;
      && (d.allowed <==> d.retryAfterSeconds == 0)
      && (d.retryAfterSeconds > 0 ==> (d.retryAfterSeconds - 1) * 1000 < until - now)
  {
    var a := Touch(o, t, k.ip, now).throttle;
    var b := Touch(o, a, k.identity, now).throttle;
    TouchLocksNothing(o, t, k.ip, now, k.ip, until);
    TouchLocksNothing(o, t, k.ip, now, k.identity, until);
    TouchLocksNothing(o, t, k.ip, now, k.pair, until);
    TouchKeepsSound(o, t, k.ip, now);
    TouchLocksNothing(o, a, k.identity, now, k.identity, until);
    TouchLocksNothing(o, a, k.identity, now, k.pair, until);
    TouchKeepsSound(o, a, k.identity, now);
    TouchLocksNothing(o, b, k.pair, now, k.pair, until);
  }

  /** The check from `t` to `r` throws out none of its own locked keys for lack of room. */
  ghost predicate SparesLocked(o: Options, t: Throttle, r: Throttle, k: Keys, now: int) {
    t.marks <= r.marks
    && forall key :: Names(k, key) && Locked(o, t, key, now) ==> Evicted(key) !in r.marks[|t.marks|..]
  }

  /**
   * After any calls on a clock that does not go back: a check is allowed when none of its three keys has failed often
   * enough within the lockout, and, unless the map is so full that it evicts one of them meanwhile, only then.
   */
  lemma AllowedExactly(o: Options, start: int, events: seq<Event>, k: Keys, now: int)
    requires InTime(start, events) && 0 <= start <= Clock(start, events) <= now
    ensures var t := Run(o, EMPTY, events); var r := Check(o, t, k, now);
      && ((forall key :: Names(k, key) ==> !Locked(o, t, key, now)) ==> r.decision == Decision(true, 0))
      && (SparesLocked(o, t, r.throttle, k, now) ==>
            (r.decision.allowed <==> forall key :: Names(k, key) ==> !Locked(o, t, key, now)))
  {
    var t := Run(o, EMPTY, events);
    BucketsAreExact(o, events);
    RunTimely(o, start, events);
    if key :| Names(k, key) && Locked(o, t, key, now) {
      LockedByRecord(o, t, key, Clock(start, events), now);
      CheckRefuses(o, t, k, now, key, Get(t.buckets, key).lockedUntil);
    } else {
      LockedByRecord(o, t, k.ip, Clock(start, events), now);
      LockedByRecord(o, t, k.identity, Clock(start, events), now);
      LockedByRecord(o, t, k.pair, Clock(start, events), now);
      CheckWaits(o, t, k, now, now);
    }
  }

  /** The latest end of the locks of the three keys. */
  ghost predicate LongestLock(o: Options, t: Throttle, k: Keys, now: int, until: int) {
    && (exists key :: Names(k, key) && Locked(o, t, key, now)
          && RecordOf(t.marks, key).failedAt.value + o.lockoutMs == until)
    && (forall key :: Names(k, key) && Locked(o, t, key, now) ==>
          RecordOf(t.marks, key).failedAt.value + o.lockoutMs <= until)
  }

  /** And a refused check is told the least whole number of seconds that outlasts the longest of these locks. */
  lemma WaitIsExact(o: Options, start: int, events: seq<Event>, k: Keys, now: int, until: int)
    requires InTime(start, events) && 0 <= start <= Clock(start, events) <= now
    requires LongestLock(o, Run(o, EMPTY, events), k, now, until)
    requires SparesLocked(o, Run(o, EMPTY, events), Check(o, Run(o, EMPTY, events), k, now).throttle, k, now)
    ensures var d := Check(o, Run(o, EMPTY, events), k, now).decision;
      !d.allowed && (d.retryAfterSeconds - 1) * 1000 < until - now <= d.retryAfterSeconds * 1000
  {
    var t := Run(o, EMPTY, events);
    BucketsAreExact(o, events);
    RunTimely(o, start, events);
    var key :| Names(k, key) && Locked(o, t, key, now) && RecordOf(t.marks, key).failedAt.value + o.lockoutMs == until;
    LockedByRecord(o, t, key, Clock(start, events), now);
    CheckRefuses(o, t, k, now, key, until);
    LockedByRecord(o, t, k.ip, Clock(start, events), now);
    LockedByRecord(o, t, k.identity, Clock(start, events), now);
    LockedByRecord(o, t, k.pair, Clock(start, events), now);
    CheckWaits(o, t, k, now, until);
  }

  // ----------------------------------------------- windows, failures and forgetting

  /** A touched key keeps its window while that is not over or the key is locked, and else starts a new one. */
  lemma TouchStartsWindow(o: Options, t: Throttle, key: string, last: int, now: int)
    requires Sound(o, t) && AllTimely(o, t.buckets, last) && 0 <= now
    ensures var u, record := Touch(o, t, key, now).throttle, RecordOf(t.marks, key);
      && (Has(t.buckets, key) ==> record.bornAt.Some?)
      && if Has(t.buckets, key) && (now - record.bornAt.value < o.windowMs || Locked(o, t, key, now)) then u == t
         else RecordOf(u.marks, key) == Record(0, Some(now), record.failedAt)
  {
    LockedByRecord(o, t, key, last, now);
    if Has(t.buckets, key) {
      assert Good(o, Get(t.buckets, key), t.marks, key);
    }
    if !(Has(t.buckets, key) && Current(o, Get(t.buckets, key), now)) {
      SetGet(t.buckets, key, FreshBucket(now), key);
      PruneSub(o, Throttle(Set(t.buckets, key, FreshBucket(now)), t.marks + [Born(key, now)]), now);
      NextRecord(t.marks, Born(key, now), key);
    }
  }

  /** When failures of the key were counted. */
  function FailTimes(marks: seq<Mark>, key: string): seq<int> {
    if marks == [] then []
    else
      var last := marks[|marks| - 1];
      FailTimes(marks[..|marks| - 1], key) + if last.Failed? && last.key == key then [last.at] else []
  }

  /** When calls reported failures of the key. */
  function ReportTimes(events: seq<Event>, key: string): seq<int> {
    if events == [] then []
    else
      var last := events[|events| - 1];
      ReportTimes(events[..|events| - 1], key) +
      if last.FailureCall? && Names(last.keys, key) then [last.now] else []
  }

  lemma NextFailTimes(marks: seq<Mark>, mark: Mark, key: string)
    ensures FailTimes(marks + [mark], key) ==
            FailTimes(marks, key) + if mark.Failed? && mark.key == key then [mark.at] else []
  {
    assert (marks + [mark])[..|marks|] == marks;
  }

  lemma {:induction false} EvictReportsNothing(o: Options, t: Throttle, key: string)
    ensures FailTimes(Evict(o, t).marks, key) == FailTimes(t.marks, key)
    decreases |t.buckets|
  {
    if |t.buckets| > o.maxBuckets {
      var i := Oldest(t.buckets);
      NextFailTimes(t.marks, Evicted(t.buckets[i].key), key);
      EvictReportsNothing(o, Throttle(RemoveAt(t.buckets, i), t.marks + [Evicted(t.buckets[i].key)]), key);
    }
  }

  lemma TouchReportsNothing(o: Options, t: Throttle, key: string, now: int, other: string)
    ensures FailTimes(Touch(o, t, key, now).throttle.marks, other) == FailTimes(t.marks, other)
  {
    if !(Has(t.buckets, key) && Current(o, Get(t.buckets, key), now)) {
      var born := Throttle(Set(t.buckets, key, FreshBucket(now)), t.marks + [Born(key, now)]);
      NextFailTimes(t.marks, Born(key, now), other);
      EvictReportsNothing(o, born.(buckets := Expire(o, born.buckets, now)), other);
    }
  }

  lemma FailOneReports(o: Options, t: Throttle, key: string, now: int, other: string)
    ensures FailTimes(FailOne(o, t, key, now).throttle.marks, other) ==
            FailTimes(t.marks, other) + if key == other then [now] else []
  {
    TouchReportsNothing(o, t, key, now, other);
    NextFailTimes(Touch(o, t, key, now).throttle.marks, Failed(key, now), other);
  }

  /** The three keys of a sign-in differ, as their scopes do. */
  predicate DistinctKeys(k: Keys) {
    k.ip != k.identity && k.ip != k.pair && k.identity != k.pair
  }

  lemma CheckReportsNothing(o: Options, t: Throttle, k: Keys, now: int, key: string)
    ensures FailTimes(Check(o, t, k, now).throttle.marks, key) == FailTimes(t.marks, key)
  {
    var a := Touch(o, t, k.ip, now).throttle;
    TouchReportsNothing(o, t, k.ip, now, key);
    TouchReportsNothing(o, a, k.identity, now, key);
    TouchReportsNothing(o, Touch(o, a, k.identity, now).throttle, k.pair, now, key);
  }

  lemma FailureReportsOnce(o: Options, t: Throttle, k: Keys, now: int, key: string)
    requires DistinctKeys(k)
    ensures FailTimes(RecordFailure(o, t, k, now).throttle.marks, key) ==
            FailTimes(t.marks, key) + if Names(k, key) then [now] else []
  {
    var a := FailOne(o, t, k.ip, now).throttle;
    var b := FailOne(o, a, k.identity, now).throttle;
    var c := FailOne(o, b, k.pair, now).throttle;
    FailOneReports(o, t, k.ip, now, key);
    FailOneReports(o, a, k.identity, now, key);
    FailOneReports(o, b, k.pair, now, key);
    EvictReportsNothing(o, c.(buckets := Expire(o, c.buckets, now)), key);
  }

  /** Exactly the reported failures of a key are counted, each once, whether its bucket stays in the map or not. */
  lemma {:induction false} EveryFailureCounts(o: Options, events: seq<Event>, key: string)
    requires forall i :: 0 <= i < |events| && events[i].FailureCall? ==> DistinctKeys(events[i].keys)
    ensures FailTimes(Run(o, EMPTY, events).marks, key) == ReportTimes(events, key)
  {
    if events != [] {
      var t := Run(o, EMPTY, events[..|events| - 1]);
      EveryFailureCounts(o, events[..|events| - 1], key);
      match events[|events| - 1]
      case CheckCall(k, now) => CheckReportsNothing(o, t, k, now, key);
      case FailureCall(k, now) => FailureReportsOnce(o, t, k, now, key);
      case SuccessCall(_) =>
    }
  }

  /** The record has the latest failure, and counts failures behind the latest birth. */
  lemma {:induction false} RecordIsRecent(marks: seq<Mark>, key: string)
    ensures var times, record := FailTimes(marks, key), RecordOf(marks, key);
      && record.failures <= |times|
      && record.failedAt == if times == [] then None else Some(times[|times| - 1])
  {
    if marks != [] {
      RecordIsRecent(marks[..|marks| - 1], key);
    }
  }

  lemma TouchCounts(o: Options, t: Throttle, key: string, now: int, other: string)
    requires Sound(o, t)
    ensures RecordOf(Touch(o, t, key, now).throttle.marks, key).failures == Touch(o, t, key, now).bucket.failures
    ensures other != key ==> RecordOf(Touch(o, t, key, now).throttle.marks, other) == RecordOf(t.marks, other)
  {
    if Has(t.buckets, key) && Current(o, Get(t.buckets, key), now) {
      assert Good(o, Get(t.buckets, key), t.marks, key);
    } else {
      SetGet(t.buckets, key, FreshBucket(now), key);
      PruneSub(o, Throttle(Set(t.buckets, key, FreshBucket(now)), t.marks + [Born(key, now)]), now);
      NextRecord(t.marks, Born(key, now), key);
      NextRecord(t.marks, Born(key, now), other);
    }
  }

  /** One key of a recorded failure is locked from then on exactly when its count has reached the limit. */
  lemma FailOneTells(o: Options, t: Throttle, key: string, before: int, now: int, other: string)
    requires Sound(o, t) && AllTimely(o, t.buckets, before) && before <= now && 0 <= now && 0 < o.lockoutMs
    ensures RetryAfter(FailOne(o, t, key, now).bucket, now) > 0 <==>
            RecordOf(FailOne(o, t, key, now).throttle.marks, key).failures >= Max(1, o.maxAttempts)
    ensures other != key ==> RecordOf(FailOne(o, t, key, now).throttle.marks, other) == RecordOf(t.marks, other)
  {
    TouchTimely(o, t, key, before, now);
    TouchCounts(o, t, key, now, other);
    NextRecord(Touch(o, t, key, now).throttle.marks, Failed(key, now), key);
    NextRecord(Touch(o, t, key, now).throttle.marks, Failed(key, now), other);
  }

  /** The answer to a reported failure refuses exactly when one of the three counts has now reached the limit. */
  lemma FailureTells(o: Options, t: Throttle, k: Keys, before: int, now: int)
    requires Sound(o, t) && AllTimely(o, t.buckets, before) && before <= now && 0 <= now && 0 < o.lockoutMs
    requires DistinctKeys(k)
    ensures var r := RecordFailure(o, t, k, now);
      r.decision.allowed <==>
        forall key :: Names(k, key) ==> RecordOf(r.throttle.marks, key).failures < Max(1, o.maxAttempts)
  {
    var a := FailOne(o, t, k.ip, now).throttle;
    var b := FailOne(o, a, k.identity, now).throttle;
    FailOneTells(o, t, k.ip, before, now, k.pair);
    FailOneTimely(o, t, k.ip, before, now);
    FailOneKeepsSound(o, t, k.ip, now);
    FailOneTells(o, a, k.identity, now, now, k.ip);
    FailOneTimely(o, a, k.identity, now, now);
    FailOneKeepsSound(o, a, k.identity, now);
    FailOneTells(o, b, k.pair, now, now, k.ip);
    FailOneTells(o, b, k.pair, now, now, k.identity);
    FailOneKeepsSound(o, b, k.pair, now);
    PruneSub(o, FailOne(o, b, k.pair, now).throttle, now);
  }

  lemma {:induction false} EvictTakesOldest(o: Options, t: Throttle, key: string, other: string)
    requires Distinct(t.buckets)
    requires Has(t.buckets, key) && !Has(Evict(o, t).buckets, key) && Has(Evict(o, t).buckets, other)
    ensures Has(t.buckets, other)
    ensures Get(t.buckets, key).lastTouchedAt <= Get(t.buckets, other).lastTouchedAt
    decreases |t.buckets|
  {
    var i := Oldest(t.buckets);
    var u := Throttle(RemoveAt(t.buckets, i), t.marks + [Evicted(t.buckets[i].key)]);
    RemoveGet(t.buckets, i, key);
    RemoveGet(t.buckets, i, other);
    EvictSub(o, t);
    if key != t.buckets[i].key {
      EvictSub(o, u);
      EvictTakesOldest(o, u, key, other);
    }
  }

  /**
   * A prune at `now` keeps no bucket that is neither locked nor touched within the window, drops any other only when
   * there are more than maxBuckets, the least recently touched first, and then keeps as many as there is room for.
   */
  lemma PruneIsExact(o: Options, t: Throttle, now: int, key: string, other: string)
    requires Distinct(t.buckets) && Has(t.buckets, key)
    ensures var r, b := Prune(o, t, now).buckets, Get(t.buckets, key);
      var alive := now - b.lastTouchedAt < o.windowMs || b.lockedUntil > now;
      && (Has(r, key) ==> alive && Get(r, key) == b)
      && (alive && !Has(r, key) ==> |r| == o.maxBuckets)
      && (alive && !Has(r, key) && Has(r, other) ==>
            Has(t.buckets, other) && b.lastTouchedAt <= Get(t.buckets, other).lastTouchedAt)
  {
    var e := t.(buckets := Expire(o, t.buckets, now));
    ExpireSub(o, t.buckets, now);
    EvictSub(o, e);
    if Has(e.buckets, key) && !Has(Evict(o, e).buckets, key) && Has(Evict(o, e).buckets, other) {
      EvictTakesOldest(o, e, key, other);
    }
  }

  /** What expires would have started a new window at its next touch anyway. */
  lemma ExpiredIsNotMissed(o: Options, t: Throttle, key: string, last: int, now: int, later: int)
    requires Sound(o, t) && AllTimely(o, t.buckets, last) && Has(t.buckets, key) && now <= later
    requires var b := Get(t.buckets, key); now - b.lastTouchedAt >= o.windowMs && b.lockedUntil <= now
    ensures var b := Get(t.buckets, key); later - b.windowStartedAt >= o.windowMs && b.lockedUntil <= later
  {
    assert Timely(o, Get(t.buckets, key), last);
  }

  /** The keys of one sign-in have no bucket any more; every other key has the one it had. */
  ghost predicate OnlyForgets(before: Buckets, after: Buckets, k: Keys) {
    && (forall key :: Has(after, key) <==> Has(before, key) && !Names(k, key))
    && (forall key :: Has(after, key) ==> Get(after, key) == Get(before, key))
  }

  lemma DeleteForgets(m: Buckets, key: string)
    requires Distinct(m)
    ensures !Has(Delete(m, key), key)
  {
    if Has(m, key) {
      RemoveGet(m, IndexOf(m, key), key);
    }
  }

  lemma SuccessForgets(o: Options, t: Throttle, k: Keys)
    requires Sound(o, t)
    ensures Sound(o, RecordSuccess(t, k)) && OnlyForgets(t.buckets, RecordSuccess(t, k).buckets, k)
  {
    var a := t.(buckets := Delete(t.buckets, k.ip));
    var b := a.(buckets := Delete(a.buckets, k.identity));
    DeleteKeepsSound(o, t, k.ip);
    DeleteKeepsSound(o, a, k.identity);
    DeleteKeepsSound(o, b, k.pair);
    DeleteForgets(t.buckets, k.ip);
    DeleteForgets(a.buckets, k.identity);
    DeleteForgets(b.buckets, k.pair);
    forall key
      ensures key != k.ip ==> Has(a.buckets, key) == Has(t.buckets, key)
      ensures key != k.ip && Has(t.buckets, key) ==> Get(a.buckets, key) == Get(t.buckets, key)
      ensures key != k.identity ==> Has(b.buckets, key) == Has(a.buckets, key)
      ensures key != k.identity && Has(a.buckets, key) ==> Get(b.buckets, key) == Get(a.buckets, key)
      ensures key != k.pair ==> Has(RecordSuccess(t, k).buckets, key) == Has(b.buckets, key)
      ensures key != k.pair && Has(b.buckets, key) ==> Get(RecordSuccess(t, k).buckets, key) == Get(b.buckets, key)
    {
      if key != k.ip { DeleteOther(t.buckets, k.ip, key); }
      if key != k.identity { DeleteOther(a.buckets, k.identity, key); }
      if key != k.pair { DeleteOther(b.buckets, k.pair, key); }
    }
  }

  // ------------------------------------------------------------------------ the code

  class Gate {
    const options: Options
    const normalise: string -> string // trim and lower-case
    var buckets: Buckets
    ghost var marks: seq<Mark>

    ghost function Model(): Throttle
      reads this
    {
      Throttle(buckets, marks)
    }

    constructor (options: Options, normalise: string -> string)
      ensures Model() == EMPTY && this.options == options && this.normalise == normalise
    {
      this.options, this.normalise := options, normalise;
      buckets, marks := [], [];
    }

    function KeysOf(ip: string, identity: string): (k: Keys)
      ensures DistinctKeys(k)
    {
      var k := Keys("ip:" + normalise(ip), "identity:" + normalise(identity),
                    "pair:" + normalise(ip) + "|" + normalise(identity));
      assert k.ip[0] == 'i' && k.ip[1] == 'p' && k.identity[0] == 'i' && k.identity[1] == 'd' && k.pair[0] == 'p';
      k
    }

    /** Spelling apart, the same address or name is the same key. */
    lemma SameSpelling(ip: string, identity: string, ip': string, identity': string)
      ensures KeysOf(ip, identity).ip == KeysOf(ip', identity').ip <==> normalise(ip) == normalise(ip')
      ensures KeysOf(ip, identity).identity == KeysOf(ip', identity').identity <==>
              normalise(identity) == normalise(identity')
      ensures normalise(ip) == normalise(ip') ==>
        (KeysOf(ip, identity).pair == KeysOf(ip', identity').pair <==> normalise(identity) == normalise(identity'))
    {
      var k, k' := KeysOf(ip, identity), KeysOf(ip', identity');
      assert k.ip[3..] == normalise(ip) && k'.ip[3..] == normalise(ip');
      assert k.identity[9..] == normalise(identity) && k'.identity[9..] == normalise(identity');
      var n := |normalise(ip)|;
      assert k.pair[5 + n + 1..] == normalise(identity);
      if normalise(ip) == normalise(ip') {
        assert k'.pair[5 + n + 1..] == normalise(identity');
      }
    }

    method PruneNow(now: int)
      modifies this
      ensures Model() == Prune(options, old(Model()), now)
    {
      var kept: Buckets := [];
      for i := 0 to |buckets|
        invariant buckets == old(buckets) && marks == old(marks)
        invariant kept == Expire(options, buckets[..i], now)
      {
        assert buckets[..i + 1][..i] == buckets[..i];
        if !IsStale(options, buckets[i].bucket, now) {
          kept := kept + [buckets[i]];
        }
      }
      assert buckets[..|buckets|] == buckets;
      buckets := kept;
      ghost var expired := Model();
      while |buckets| > options.maxBuckets
        invariant Evict(options, Model()) == Evict(options, expired)
        decreases |buckets|
      {
        var oldest := OldestEntry();
        marks := marks + [Evicted(buckets[oldest].key)];
        buckets := RemoveAt(buckets, oldest);
      }
    }

    /** The head of the stable sort by lastTouchedAt. */
    method OldestEntry() returns (oldest: nat)
      requires buckets != []
      ensures oldest == Oldest(buckets)
    {
      oldest := 0;
      for i := 1 to |buckets|
        invariant oldest < i
        invariant forall k :: 0 <= k < i ==> buckets[oldest].bucket.lastTouchedAt <= buckets[k].bucket.lastTouchedAt
        invariant forall k :: 0 <= k < oldest ==> buckets[oldest].bucket.lastTouchedAt < buckets[k].bucket.lastTouchedAt
      {
        if buckets[i].bucket.lastTouchedAt < buckets[oldest].bucket.lastTouchedAt {
          oldest := i;
        }
      }
    }

    method BucketFor(key: string, now: int) returns (bucket: Bucket)
      modifies this
      ensures Touched(Model(), bucket) == Touch(options, old(Model()), key, now)
    {
      if Has(buckets, key) && Current(options, Get(buckets, key), now) {
        return Get(buckets, key);
      }
      bucket := FreshBucket(now);
      buckets := Set(buckets, key, bucket);
      marks := marks + [Born(key, now)];
      PruneNow(now);
    }

    method CheckLogin(ip: string, identity: string, now: int) returns (decision: Decision)
      modifies this
      ensures Answer(Model(), decision) == Check(options, old(Model()), KeysOf(ip, identity), now)
    {
      var keys := KeysOf(ip, identity);
      var a := BucketFor(keys.ip, now);
      var b := BucketFor(keys.identity, now);
      var c := BucketFor(keys.pair, now);
      return Decide(Max(RetryAfter(a, now), Max(RetryAfter(b, now), RetryAfter(c, now))));
    }

    /** The body of the loop over the three keys. */
    method FailKey(key: string, now: int) returns (bucket: Bucket)
      modifies this
      ensures Touched(Model(), bucket) == FailOne(options, old(Model()), key, now)
    {
      bucket := BucketFor(key, now);
      bucket := Bumped(options, bucket, now);
      if Has(buckets, key) {
        buckets := Set(buckets, key, bucket);
      }
      marks := marks + [Failed(key, now)];
    }

    method RecordLoginFailure(ip: string, identity: string, now: int) returns (decision: Decision)
      modifies this
      ensures Answer(Model(), decision) == RecordFailure(options, old(Model()), KeysOf(ip, identity), now)
    {
      var keys := KeysOf(ip, identity);
      var a := FailKey(keys.ip, now);
      var b := FailKey(keys.identity, now);
      var c := FailKey(keys.pair, now);
      PruneNow(now);
      return Decide(Max(RetryAfter(a, now), Max(RetryAfter(b, now), RetryAfter(c, now))));
    }

    method RecordLoginSuccess(ip: string, identity: string)
      modifies this
      ensures Model() == RecordSuccess(old(Model()), KeysOf(ip, identity))
      ensures Sound(options, old(Model())) ==>
        Sound(options, Model()) && OnlyForgets(old(buckets), buckets, KeysOf(ip, identity))
    {
      var keys := KeysOf(ip, identity);
      if Sound(options, Model()) {
        SuccessForgets(options, Model(), keys);
      }
      buckets := Delete(Delete(Delete(buckets, keys.ip), keys.identity), keys.pair);
    }
  }
}
