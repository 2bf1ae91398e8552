/*
 * The in-memory captcha store: a table from captcha id to the stored
 * solution and its absolute expiry instant.
 *
 * Instants and durations are integers counting nanoseconds (the unit of
 * Go's time.Duration); the clock reading each operation takes is passed in
 * as `now`.
 */
module CaptchaStore {

  /** One stored captcha: its solution and the instant at which it expires. */
  datatype CaptchaInfo = CaptchaInfo(captcha: string, expireTime: int)

  type Table = map<string, CaptchaInfo>

  const Second: int := 1_000_000_000
  const Minute: int := 60 * Second

  /** Collection interval used when the store is created with interval 0. */
  const DefaultInterval: int := 5 * Minute

  /** The collection interval a new store runs its sweep with. */
  function EffectiveInterval(interval: int): (r: int)
    ensures interval == 0 ==> r == DefaultInterval
    ensures interval != 0 ==> r == interval
    ensures interval >= 0 ==> r > 0
  {
    if interval == 0 then DefaultInterval else interval
  }

  /** The test a lookup applies: the record is still valid strictly before its expiry. */
  predicate Live(info: CaptchaInfo, now: int)
  {
    info.expireTime > now
  }

  /** The test the sweep applies: the expiry lies strictly before `now`. */
  predicate Expired(info: CaptchaInfo, now: int)
  {
    now > info.expireTime
  }

  /** The table after storing `captcha` for `id` at `now`, valid for `afterExpire`. */
  function Stored(m: Table, id: string, captcha: string, afterExpire: int, now: int): (r: Table)
    ensures id in r && r[id].captcha == captcha && r[id].expireTime == now + afterExpire
    ensures r.Keys == m.Keys + {id}
    ensures forall k :: k in m && k != id ==> r[k] == m[k]
  {
    m[id := CaptchaInfo(captcha, now + afterExpire)]
  }

  /** What a lookup of `id` at `now` returns: the solution of a live record, otherwise "". */
  function Solution(m: Table, id: string, now: int): (r: string)
    ensures r == "" || (id in m && r == m[id].captcha)
    ensures id in m && Live(m[id], now) ==> r == m[id].captcha
    ensures !(id in m && Live(m[id], now)) ==> r == ""
  {
    if id in m && Live(m[id], now) then m[id].captcha else ""
  }

  /** The table after a lookup of `id`; `clear` removes the record whatever its expiry. */
  function AfterGet(m: Table, id: string, clear: bool): (r: Table)
    ensures clear ==> r.Keys == m.Keys - {id}
    ensures !clear ==> r == m
    ensures forall k :: k in r ==> k in m && r[k] == m[k]
  {
    if clear then m - {id} else m
  }

  /** The table after a sweep at `now`: exactly the records that have not expired, unchanged. */
  function Swept(m: Table, now: int): (r: Table)
    ensures r.Keys <= m.Keys
    ensures forall k :: k in r ==> r[k] == m[k] && !Expired(m[k], now)
    ensures forall k :: k in m && !Expired(m[k], now) ==> k in r
  {
    map k | k in m && !Expired(m[k], now) :: m[k]
  }

  /** The store object: the table is updated in place by Set, Get and Collect. */
  class MemoryStore {
    var captchaMap: Table
    /** Period of the collection ticker. */
    const tickerInterval: int

    constructor (interval: int)
      ensures captchaMap == map[]
      ensures tickerInterval == EffectiveInterval(interval)
    {
      captchaMap := map[];
      tickerInterval := EffectiveInterval(interval);
    }

    method Set(id: string, captcha: string, afterExpire: int, now: int)
      modifies this
      ensures captchaMap == Stored(old(captchaMap), id, captcha, afterExpire, now)
    {
      captchaMap := captchaMap[id := CaptchaInfo(captcha, now + afterExpire)];
    }

    method Get(id: string, clear: bool, now: int) returns (r: string)
      modifies this
      ensures r == Solution(old(captchaMap), id, now)
      ensures captchaMap == AfterGet(old(captchaMap), id, clear)
    {
      r := "";
      if id in captchaMap {
        var info := captchaMap[id];
        if clear {
          captchaMap := captchaMap - {id};
        }
        if info.expireTime > now {
          r := info.captcha;
        }
      }
    }

    /** One sweep with a single clock reading `now`, visiting every key once. */
    method Collect(now: int)
      modifies this
      ensures captchaMap == Swept(old(captchaMap), now)
    {
      var pending := captchaMap.Keys;
      while pending != {}
        invariant pending <= old(captchaMap).Keys
        invariant forall k :: k in captchaMap <==>
          k in old(captchaMap) && (k in pending || !Expired(old(captchaMap)[k], now))
        invariant forall k :: k in captchaMap ==> captchaMap[k] == old(captchaMap)[k]
        decreases pending
      {
        var k :| k in pending;
        if now > captchaMap[k].expireTime {
          captchaMap := captchaMap - {k};
        }
        pending := pending - {k};
      }
    }
  }

  /** A call on the store, with the clock reading it takes. */
  datatype Op =
    | SetOp(id: string, captcha: string, afterExpire: int, now: int)
    | GetOp(id: string, clear: bool, now: int)
    | CollectOp(now: int)

  /** The table after one call. */
  function Apply(m: Table, op: Op): Table
  {
    match op
    case SetOp(id, captcha, afterExpire, now) => Stored(m, id, captcha, afterExpire, now)
    case GetOp(id, clear, _) => AfterGet(m, id, clear)
    case CollectOp(now) => Swept(m, now)
  }

  /** The table after a sequence of calls, in order. */
  function Replay(m: Table, ops: seq<Op>): Table
    decreases |ops|
  {
    if ops == [] then m else Replay(Apply(m, ops[0]), ops[1..])
  }

  /** A call that neither names `id` nor sweeps after `deadline`. */
  predicate Spares(op: Op, id: string, deadline: int)
  {
    match op
    case SetOp(k, _, _, _) => k != id
    case GetOp(k, _, _) => k != id
    case CollectOp(now) => now <= deadline
  }

  // ---------------------------------------------------------------------
  // Properties
  // ---------------------------------------------------------------------

  /** A lookup right after Set returns the stored solution exactly while `u < t + d`. */
  lemma SetThenGet(m: Table, id: string, c: string, d: int, t: int, u: int)
    ensures u < t + d ==> Solution(Stored(m, id, c, d, t), id, u) == c
    ensures u >= t + d ==> Solution(Stored(m, id, c, d, t), id, u) == ""
  {
  }

  /** Set replaces solution and expiry together: nothing of the earlier record survives. */
  lemma SetReplacesRecord(m: Table, id: string, c1: string, d1: int, t1: int, c2: string, d2: int, t2: int)
    ensures Stored(Stored(m, id, c1, d1, t1), id, c2, d2, t2) == Stored(m, id, c2, d2, t2)
  {
  }

  /** Get answers "" for an absent id and for a record with `expireTime <= now`. */
  lemma GetEmptyUnlessLive(m: Table, id: string, now: int)
    ensures id !in m ==> Solution(m, id, now) == ""
    ensures id in m && m[id].expireTime <= now ==> Solution(m, id, now) == ""
    ensures id in m && m[id].expireTime > now ==> Solution(m, id, now) == m[id].captcha
  {
  }

  /** A lookup with `clear` is single use: a later lookup of the same id finds nothing,
      and every other record is untouched. */
  lemma GetClearIsSingleUse(m: Table, id: string, later: int)
    ensures Solution(AfterGet(m, id, true), id, later) == ""
    ensures forall k :: k != id ==> Solution(AfterGet(m, id, true), k, later) == Solution(m, k, later)
  {
  }

  /** The two expiry tests meet at one instant: a record with `expireTime == now`
      is no longer returned by Get, yet survives a sweep at `now`. */
  lemma ExpiryBoundary(m: Table, id: string, now: int)
    requires id in m && m[id].expireTime == now
    ensures Solution(m, id, now) == ""
    ensures id in Swept(m, now) && Swept(m, now)[id] == m[id]
  {
  }

  /** Every record a sweep removes is already invisible to lookups at the sweep's instant. */
  lemma SweepRemovesOnlyDead(m: Table, now: int)
    ensures forall k :: k in m && k !in Swept(m, now) ==> !Live(m[k], now)
  {
  }

  /** A sweep at or before the lookup's instant never changes what a lookup returns. */
  lemma SweepInvisibleToGet(m: Table, id: string, sweepAt: int, now: int)
    requires sweepAt <= now
    ensures Solution(Swept(m, sweepAt), id, now) == Solution(m, id, now)
  {
  }

  /** A second sweep at the same instant removes nothing. */
  lemma SweepIdempotent(m: Table, now: int)
    ensures Swept(Swept(m, now), now) == Swept(m, now)
  {
  }

  /** A sweep never adds keys, so the table never grows. */
  lemma SweepNeverGrows(m: Table, now: int)
    ensures |Swept(m, now)| <= |m|
  {
    var r := Swept(m, now);
    SubsetCardinality(r.Keys, m.Keys);
  }

  lemma {:induction false} SubsetCardinality(a: set<string>, b: set<string>)
    requires a <= b
    ensures |a| <= |b|
    decreases b
  {
    if a != {} {
      var x :| x in a;
      SubsetCardinality(a - {x}, b - {x});
    }
  }

  /** Any number of lookups with `clear == false` leave the table as it was. */
  lemma {:induction false} PeeksNeverChangeTable(m: Table, ops: seq<Op>)
    requires forall i :: 0 <= i < |ops| ==> ops[i].GetOp? && !ops[i].clear
    ensures Replay(m, ops) == m
    decreases |ops|
  {
    if ops != [] {
      PeeksNeverChangeTable(m, ops[1..]);
    }
  }

  /** A record survives, unchanged, every call that spares it. */
  lemma {:induction false} SparedRecordSurvives(m: Table, id: string, ops: seq<Op>)
    requires id in m
    requires forall i :: 0 <= i < |ops| ==> Spares(ops[i], id, m[id].expireTime)
    ensures id in Replay(m, ops) && Replay(m, ops)[id] == m[id]
    decreases |ops|
  {
    if ops != [] {
      var m' := Apply(m, ops[0]);
      SparedRecordSurvives(m', id, ops[1..]);
    }
  }

  /** After Set(id, c, d) at t, calls on other ids and sweeps up to t + d
      leave a lookup of id at any u < t + d returning c. */
  lemma {:induction false} SetThenGetAfterOtherCalls(m: Table, id: string, c: string, d: int, t: int, ops: seq<Op>, u: int)
    requires forall i :: 0 <= i < |ops| ==> Spares(ops[i], id, t + d)
    requires u < t + d
    ensures Solution(Replay(Stored(m, id, c, d, t), ops), id, u) == c
  {
    SparedRecordSurvives(Stored(m, id, c, d, t), id, ops);
  }
}
