/** Every run of the buffer cache under concurrent clients refines a plain block store
    (kernel/bio.c, and the client discipline of kernel/log.c). */
module CacheRuns {
  import opened Basics
  import opened BufferCache

  /** users[b] holds the block each outstanding bread of buffer b asked for, leaving[b] counts those that have
      left the buffer's sleep lock in brelse; holder[b] is the process inside it, dirty[b] whether it has
      changed the data since it last logged or wrote it, wrote[b] whether it has written it and not changed
      it since; pins[b] counts bpin over bunpin. `cur` is the plain block store being refined and `stray` the
      blocks released changed but neither logged nor written; stamp[b] is the time buffer b was last released
      by its last user. */
  datatype State<D> = State(
    c: Cache<D>, disk: map<Key, D>, users: seq<multiset<Key>>, leaving: seq<nat>, holder: seq<Option<nat>>,
    dirty: seq<bool>, wrote: seq<bool>, pins: seq<nat>, cur: map<Key, D>, stray: set<Key>, stamp: seq<nat>, now: nat)

  /** The atomic sections of bread, bwrite, brelse, bpin and bunpin, and the client's own store. */
  datatype Event<D> =
    | BGet(p: nat, key: Key)
    | Lock(p: nat, b: nat, key: Key)
    | Fill(p: nat, b: nat)
    | Store(p: nat, b: nat, data: D)
    | BWrite(p: nat, b: nat)
    | Pin(p: nat, b: nat)
    | Absorb(p: nat, b: nat)    // log_write of a block the transaction has already pinned
    | Unpin(p: nat, b: nat)
    | Unlock(p: nat, b: nat)    // brelse: releasesleep
    | Deref(b: nat, key: Key)   // brelse: the reference count and the list, under bcache.lock

  ghost predicate Init<D>(s: State<D>) {
    && Shaped(s.c)
    && (forall b :: 0 <= b < NBUF ==> s.c.bufs[b].key == Key(0, 0) && !s.c.bufs[b].valid && s.c.bufs[b].refcnt == 0)
    && s.cur == s.disk && (forall k :: k in s.disk ==> k.dev != 0)
    && s.users == seq(NBUF, _ => multiset{}) && s.holder == seq(NBUF, _ => None) && s.dirty == seq(NBUF, _ => false)
    && s.leaving == seq(NBUF, _ => 0) && s.wrote == seq(NBUF, _ => false) && s.stray == {}
    && s.pins == seq(NBUF, _ => 0) && s.stamp == seq(NBUF, _ => 0) && s.now == 0
  }

  predicate Sized<D>(s: State<D>) {
    && |s.users| == |s.holder| == |s.dirty| == |s.pins| == |s.stamp| == |s.leaving| == |s.wrote| == NBUF
    && Shaped(s.c)
  }

  /** Data changes under the sleep lock, and a pin is dropped only by install_trans, which has just written
      the buffer. */
  ghost predicate Enabled<D>(s: State<D>, e: Event<D>)
    requires Sized(s)
  {
    match e
    case BGet(p, key) => key in s.disk && Get(s.c, key).Some?
    case Lock(p, b, key) => b < NBUF && s.holder[b] == None && key in s.users[b] && s.leaving[b] < |s.users[b]|
    case Fill(p, b) => b < NBUF && s.holder[b] == Some(p) && !s.c.bufs[b].valid && s.c.bufs[b].key in s.disk
    case Store(p, b, data) => b < NBUF && s.holder[b] == Some(p) && s.c.bufs[b].valid
    case BWrite(p, b) => b < NBUF && s.holder[b] == Some(p) && s.c.bufs[b].valid
    case Pin(p, b) => b < NBUF && s.holder[b] == Some(p) && s.c.bufs[b].valid
    case Absorb(p, b) => b < NBUF && s.holder[b] == Some(p) && s.c.bufs[b].valid && s.pins[b] > 0
    case Unpin(p, b) => b < NBUF && s.holder[b] == Some(p) && s.wrote[b] && s.pins[b] > 0 && s.c.bufs[b].refcnt > 0
    case Unlock(p, b) => b < NBUF && s.holder[b] == Some(p)
    case Deref(b, key) => b < NBUF && s.leaving[b] > 0 && key in s.users[b] && s.c.bufs[b].refcnt > 0
  }

  ghost function Next<D>(s: State<D>, e: Event<D>): State<D>
    requires Sized(s) && Enabled(s, e)
  {
    match e
    case BGet(p, key) =>
      var (c, b) := Get(s.c, key).value;
      s.(c := c, users := s.users[b := s.users[b] + multiset{key}])
    case Lock(p, b, key) => s.(holder := s.holder[b := Some(p)])
    case Fill(p, b) =>
      var buf := s.c.bufs[b];
      s.(c := s.c.(bufs := s.c.bufs[b := buf.(valid := true, data := s.disk[buf.key])]),
         cur := if buf.key in s.stray then s.cur[buf.key := s.disk[buf.key]] else s.cur, stray := s.stray - {buf.key})
    case Store(p, b, data) =>
      var buf := s.c.bufs[b];
      s.(c := s.c.(bufs := s.c.bufs[b := buf.(data := data)]), cur := s.cur[buf.key := data],
         dirty := s.dirty[b := true], wrote := s.wrote[b := false])
    case BWrite(p, b) =>
      s.(disk := s.disk[s.c.bufs[b].key := s.c.bufs[b].data], dirty := s.dirty[b := false],
         wrote := s.wrote[b := true], stray := s.stray - {s.c.bufs[b].key})
    case Pin(p, b) =>
      s.(c := Referenced(s.c, b, 1), pins := s.pins[b := s.pins[b] + 1], dirty := s.dirty[b := false],
         stray := s.stray - {s.c.bufs[b].key})
    case Absorb(p, b) => s.(dirty := s.dirty[b := false], stray := s.stray - {s.c.bufs[b].key})
    case Unpin(p, b) => s.(c := Referenced(s.c, b, -1), pins := s.pins[b := s.pins[b] - 1])
    case Unlock(p, b) =>
      s.(holder := s.holder[b := None], leaving := s.leaving[b := s.leaving[b] + 1],
         dirty := s.dirty[b := false], wrote := s.wrote[b := false],
         stray := if s.dirty[b] then s.stray + {s.c.bufs[b].key} else s.stray)
    case Deref(b, key) =>
      var c := Release(s.c, b);
      s.(c := c, users := s.users[b := s.users[b] - multiset{key}], leaving := s.leaving[b := s.leaving[b] - 1],
         stamp := if c.bufs[b].refcnt == 0 then s.stamp[b := s.now + 1] else s.stamp, now := s.now + 1)
  }

  // ---- What every run keeps ----

  /** Reference counts are exact, and a referenced buffer keeps the block its users asked for. */
  ghost predicate Counts<D>(s: State<D>)
    requires Sized(s)
  {
    forall b :: 0 <= b < NBUF ==>
      && s.c.bufs[b].refcnt == |s.users[b]| + s.pins[b]
      && (forall k :: k in s.users[b] ==> k == s.c.bufs[b].key)
      && s.leaving[b] + (if s.holder[b].Some? then 1 else 0) <= |s.users[b]|
      && (s.dirty[b] || s.wrote[b] ==> s.holder[b].Some?)
  }

  /** No block other than the initial (0, 0) has two buffers. */
  ghost predicate Unique<D>(s: State<D>)
    requires Sized(s)
  {
    forall a, b :: 0 <= a < b < NBUF && s.c.bufs[a].key == s.c.bufs[b].key ==> s.c.bufs[a].key == Key(0, 0)
  }

  /** A valid buffer holds the current contents, and differs from the disk only while pinned, dirty or stray. */
  ghost predicate BufOk<D>(s: State<D>, b: nat)
    requires Sized(s) && b < NBUF
  {
    var buf := s.c.bufs[b];
    && (buf.key in s.disk || buf.key == Key(0, 0))
    && (buf.valid ==> buf.key in s.disk && buf.key in s.cur && buf.data == s.cur[buf.key])
    && (buf.valid && s.pins[b] == 0 && !s.dirty[b] && buf.key !in s.stray ==> s.disk[buf.key] == buf.data)
    && (!buf.valid ==> s.pins[b] == 0 && !s.dirty[b] && !s.wrote[b])
    && (s.wrote[b] ==> s.disk[buf.key] == buf.data && !s.dirty[b])
  }

  ghost predicate Uncached<D>(s: State<D>, k: Key)
    requires Sized(s)
  {
    forall b :: 0 <= b < NBUF ==> !(s.c.bufs[b].valid && s.c.bufs[b].key == k)
  }

  ghost predicate ByStamp(order: seq<nat>, stamp: seq<nat>) {
    && (forall i :: 0 <= i < |order| ==> order[i] < |stamp|)
    && (forall i, j :: 0 <= i < j < |order| ==> stamp[order[i]] >= stamp[order[j]])
  }

  /** The list is ordered by the time of last use. */
  ghost predicate Recency<D>(s: State<D>)
    requires Sized(s)
  {
    && ByStamp(s.c.order, s.stamp)
    && (forall b :: 0 <= b < NBUF ==> s.stamp[b] <= s.now)
  }

  ghost predicate Inv<D>(s: State<D>) {
    && Sized(s) && Counts(s) && Unique(s) && Recency(s)
    && s.disk.Keys == s.cur.Keys && (forall k :: k in s.disk ==> k.dev != 0)
    && (forall b :: 0 <= b < NBUF ==> BufOk(s, b))
    && (forall k :: k in s.disk && k !in s.stray && Uncached(s, k) ==> s.disk[k] == s.cur[k])
  }

  lemma InitInv<D>(s: State<D>)
    requires Init(s)
    ensures Inv(s)
  {
    forall k | k in s.disk ensures s.disk[k] == s.cur[k] {}
  }

  /** bget finds the only buffer of the block, or recycles one that nobody uses, pins or has left unwritten. */
  lemma GetFacts<D>(s: State<D>, key: Key)
    requires Inv(s) && key in s.disk && Get(s.c, key).Some?
    ensures var (c, b) := Get(s.c, key).value;
            && b < NBUF && c.order == s.c.order && |c.bufs| == NBUF && c.bufs[b].key == key
            && (forall a :: 0 <= a < NBUF && a != b ==> c.bufs[a] == s.c.bufs[a] && c.bufs[a].key != key)
            && if s.c.bufs[b].key == key then c.bufs[b] == s.c.bufs[b].(refcnt := s.c.bufs[b].refcnt + 1)
               else c.bufs[b] == Buf(key, false, 1, s.c.bufs[b].data) && s.c.bufs[b].refcnt == 0
  {
    var (c, b) := Get(s.c, key).value;
    forall a | 0 <= a < NBUF && a != b ensures c.bufs[a] == s.c.bufs[a] && c.bufs[a].key != key {
      assert s.c.order[Index(s.c.order, a)] == a;
    }
  }

  lemma GetShaped<D>(s: State<D>, t: State<D>, key: Key)
    requires Sized(s) && t.c.order == s.c.order && |t.c.bufs| == NBUF
    ensures |s.c.bufs| == NBUF && Shaped(t.c)
  {
  }

  lemma BGetCounts<D>(s: State<D>, p: nat, key: Key)
    requires Inv(s) && Enabled(s, BGet(p, key)) && Sized(Next(s, BGet(p, key)))
    ensures Counts(Next(s, BGet(p, key)))
  {
    hide Get, Recency, Shaped, Unique, BufOk, Uncached;
    GetFacts(s, key);
  }

  lemma BGetUnique<D>(s: State<D>, p: nat, key: Key)
    requires Inv(s) && Enabled(s, BGet(p, key)) && Sized(Next(s, BGet(p, key)))
    ensures Unique(Next(s, BGet(p, key)))
  {
    hide Get, Recency, Shaped, Counts, BufOk, Uncached;
    GetFacts(s, key);
  }

  /** A buffer without references is neither pinned nor in use. */
  lemma Idle<D>(s: State<D>, b: nat)
    requires Sized(s) && Counts(s) && b < NBUF && s.c.bufs[b].refcnt == 0
    ensures s.pins[b] == 0 && !s.dirty[b] && !s.wrote[b] && s.holder[b] == None
  {
  }

  lemma BGetInv<D>(s: State<D>, p: nat, key: Key)
    requires Inv(s) && Enabled(s, BGet(p, key))
    ensures Inv(Next(s, BGet(p, key)))
  {
    hide Get, Recency, Shaped, Counts, Unique;
    GetFacts(s, key);
    var t, b := Next(s, BGet(p, key)), Get(s.c, key).value.1;
    GetShaped(s, t, key);
    RecencyFrame(s, t);
    BGetCounts(s, p, key);
    BGetUnique(s, p, key);
    if s.c.bufs[b].refcnt == 0 { Idle(s, b); }
    forall a | 0 <= a < NBUF ensures BufOk(t, a) { assert BufOk(s, a); }
    forall k | k in t.disk && k !in t.stray && Uncached(t, k) ensures t.disk[k] == t.cur[k] {
      assert BufOk(s, b);
      if !Uncached(s, k) {
        var a :| 0 <= a < NBUF && s.c.bufs[a].valid && s.c.bufs[a].key == k;
        assert a == b;
      }
    }
  }

  lemma FillInv<D>(s: State<D>, p: nat, b: nat)
    requires Inv(s) && Enabled(s, Fill(p, b))
    ensures Inv(Next(s, Fill(p, b)))
  {
    var t, k := Next(s, Fill(p, b)), s.c.bufs[b].key;
    assert Uncached(s, k);
    forall a | 0 <= a < NBUF ensures BufOk(t, a) { assert BufOk(s, a); }
    forall k | k in t.disk && k !in t.stray && Uncached(t, k) ensures t.disk[k] == t.cur[k] {
      forall a | 0 <= a < NBUF ensures !(s.c.bufs[a].valid && s.c.bufs[a].key == k) {
        assert !(t.c.bufs[a].valid && t.c.bufs[a].key == k);
      }
      assert Uncached(s, k);
    }
  }

  lemma StoreInv<D>(s: State<D>, p: nat, b: nat, data: D)
    requires Inv(s) && Enabled(s, Store(p, b, data))
    ensures Inv(Next(s, Store(p, b, data)))
  {
    var t := Next(s, Store(p, b, data));
    assert BufOk(s, b);
    assert t.cur.Keys == s.cur.Keys;
    forall a | 0 <= a < NBUF ensures BufOk(t, a) { assert BufOk(s, a); }
    forall k | k in t.disk && k !in t.stray && Uncached(t, k) ensures t.disk[k] == t.cur[k] {
      assert !(t.c.bufs[b].valid && t.c.bufs[b].key == k);
      forall a | 0 <= a < NBUF ensures !(s.c.bufs[a].valid && s.c.bufs[a].key == k) {
        assert !(t.c.bufs[a].valid && t.c.bufs[a].key == k);
      }
      assert Uncached(s, k);
    }
  }

  lemma BWriteInv<D>(s: State<D>, p: nat, b: nat)
    requires Inv(s) && Enabled(s, BWrite(p, b))
    ensures Inv(Next(s, BWrite(p, b)))
  {
    var t := Next(s, BWrite(p, b));
    assert BufOk(s, b);
    forall a | 0 <= a < NBUF ensures BufOk(t, a) { assert BufOk(s, a); }
    forall k | k in t.disk && k !in t.stray && Uncached(t, k) ensures t.disk[k] == t.cur[k] {
      assert Uncached(s, k);
    }
  }

  lemma PinInv<D>(s: State<D>, p: nat, b: nat)
    requires Inv(s) && Enabled(s, Pin(p, b))
    ensures Inv(Next(s, Pin(p, b)))
  {
    var t := Next(s, Pin(p, b));
    forall a | 0 <= a < NBUF ensures BufOk(t, a) { assert BufOk(s, a); }
    SameCached(s, t);
  }

  lemma UnpinInv<D>(s: State<D>, p: nat, b: nat)
    requires Inv(s) && Enabled(s, Unpin(p, b))
    ensures Inv(Next(s, Unpin(p, b)))
  {
    var t := Next(s, Unpin(p, b));
    forall a | 0 <= a < NBUF ensures BufOk(t, a) { assert BufOk(s, a); }
    SameCached(s, t);
  }

  /** Events that leave keys, validity and data alone leave the store's relation to the disk alone. */
  lemma SameCached<D>(s: State<D>, t: State<D>)
    requires Sized(s) && Sized(t) && s.disk == t.disk && s.cur == t.cur && s.disk.Keys == s.cur.Keys
    requires forall b :: 0 <= b < NBUF ==> s.c.bufs[b].key == t.c.bufs[b].key && s.c.bufs[b].valid == t.c.bufs[b].valid
    requires forall k :: k in s.disk && k !in s.stray && Uncached(s, k) ==> s.disk[k] == s.cur[k]
    requires forall k :: k in s.stray && k !in t.stray ==> !Uncached(t, k)
    ensures forall k :: k in t.disk && k !in t.stray && Uncached(t, k) ==> t.disk[k] == t.cur[k]
  {
    forall k | k in t.disk && k !in t.stray && Uncached(t, k) ensures t.disk[k] == t.cur[k] {
      forall a | 0 <= a < NBUF ensures !(s.c.bufs[a].valid && s.c.bufs[a].key == k) {
        assert !(t.c.bufs[a].valid && t.c.bufs[a].key == k);
      }
      assert Uncached(s, k);
    }
  }

  /** Moving a buffer to the front with a new latest stamp keeps the list ordered by stamp. */
  lemma FrontSorted(order: seq<nat>, stamp: seq<nat>, k: nat, now: nat)
    requires k < |order| && Distinct(order) && ByStamp(order, stamp)
    requires forall b :: 0 <= b < |stamp| ==> stamp[b] <= now
    ensures ByStamp([order[k]] + Without(order, k), stamp[order[k] := now + 1])
  {
    var w := Without(order, k);
    assert forall i :: 0 <= i < |w| ==> w[i] == order[if i < k then i else i + 1] && w[i] != order[k];
  }

  /** What brelse's second half does to the buffers. */
  lemma DerefBufs<D>(s: State<D>, b: nat, key: Key)
    requires Sized(s) && Enabled(s, Deref(b, key))
    ensures var c := Next(s, Deref(b, key)).c;
            && Shaped(c) && |s.c.bufs| == NBUF
            && c.bufs == s.c.bufs[b := s.c.bufs[b].(refcnt := s.c.bufs[b].refcnt - 1)]
            && c.order == if c.bufs[b].refcnt == 0 then [b] + Without(s.c.order, Index(s.c.order, b)) else s.c.order
  {
    ReleaseShaped(s.c, b);
  }

  lemma DerefRecency<D>(s: State<D>, b: nat, key: Key)
    requires Sized(s) && Recency(s) && Enabled(s, Deref(b, key))
    ensures Sized(Next(s, Deref(b, key))) && Recency(Next(s, Deref(b, key)))
  {
    hide Release, Shaped, ByStamp, Without, Index;
    DerefBufs(s, b, key);
    DerefSorted(s, b);
  }

  lemma DerefSorted<D>(s: State<D>, b: nat)
    requires Sized(s) && Recency(s) && b < NBUF
    ensures b in s.c.order && ByStamp([b] + Without(s.c.order, Index(s.c.order, b)), s.stamp[b := s.now + 1])
  {
    hide ByStamp, Without;
    FrontSorted(s.c.order, s.stamp, Index(s.c.order, b), s.now);
  }

  lemma DerefCounts<D>(s: State<D>, b: nat, key: Key)
    requires Sized(s) && Counts(s) && Enabled(s, Deref(b, key)) && Sized(Next(s, Deref(b, key)))
    ensures Counts(Next(s, Deref(b, key)))
  {
    hide Release, Shaped, Without, Index;
    DerefBufs(s, b, key);
  }

  lemma DerefInv<D>(s: State<D>, b: nat, key: Key)
    requires Inv(s) && Enabled(s, Deref(b, key))
    ensures Inv(Next(s, Deref(b, key)))
  {
    hide Recency, Release, Shaped, Counts, Without, Index;
    var t := Next(s, Deref(b, key));
    DerefBufs(s, b, key);
    DerefRecency(s, b, key);
    DerefCounts(s, b, key);
    forall a | 0 <= a < NBUF ensures BufOk(t, a) { assert BufOk(s, a); }
    SameCached(s, t);
  }

  lemma UnlockInv<D>(s: State<D>, p: nat, b: nat)
    requires Inv(s) && Enabled(s, Unlock(p, b))
    ensures Inv(Next(s, Unlock(p, b)))
  {
    hide Recency, FirstMatch, Victim;
    var t := Next(s, Unlock(p, b));
    assert Recency(t) by { RecencyFrame(s, t); }
    forall a | 0 <= a < NBUF ensures BufOk(t, a) { assert BufOk(s, a); }
    SameCached(s, t);
  }

  lemma RecencyFrame<D>(s: State<D>, t: State<D>)
    requires Sized(s) && Sized(t) && Recency(s) && t.c.order == s.c.order && t.stamp == s.stamp && t.now == s.now
    ensures Recency(t)
  {
  }

  lemma LockAbsorbInv<D>(s: State<D>, e: Event<D>)
    requires Inv(s) && Enabled(s, e) && (e.Lock? || e.Absorb?)
    ensures Inv(Next(s, e))
  {
    var t := Next(s, e);
    forall a | 0 <= a < NBUF ensures BufOk(t, a) { assert BufOk(s, a); }
    SameCached(s, t);
  }

  lemma NextInv<D>(s: State<D>, e: Event<D>)
    requires Inv(s) && Enabled(s, e)
    ensures Inv(Next(s, e))
  {
    match e
    case BGet(p, key) => BGetInv(s, p, key);
    case Lock(p, b, key) => LockAbsorbInv(s, e);
    case Absorb(p, b) => LockAbsorbInv(s, e);
    case Fill(p, b) => FillInv(s, p, b);
    case Store(p, b, data) => StoreInv(s, p, b, data);
    case BWrite(p, b) => BWriteInv(s, p, b);
    case Pin(p, b) => PinInv(s, p, b);
    case Unpin(p, b) => UnpinInv(s, p, b);
    case Unlock(p, b) => UnlockInv(s, p, b);
    case Deref(b, key) => DerefInv(s, b, key);
  }

  // ---- Runs ----

  ghost predicate Run<D>(ss: seq<State<D>>, es: seq<Event<D>>) {
    && |ss| == |es| + 1 && Init(ss[0])
    && forall i :: 0 <= i < |es| ==> Sized(ss[i]) && Enabled(ss[i], es[i]) && ss[i + 1] == Next(ss[i], es[i])
  }

  lemma {:induction false} RunInv<D>(ss: seq<State<D>>, es: seq<Event<D>>, n: nat)
    requires Run(ss, es) && n <= |es|
    ensures Inv(ss[n])
  {
    if n == 0 {
      InitInv(ss[0]);
    } else {
      RunInv(ss, es, n - 1);
      NextInv(ss[n - 1], es[n - 1]);
    }
  }

  /** In every run, the process inside a filled buffer sees what the store `cur` has for the block it asked bread
      for, whatever was cached, recycled or written back in between. A store that was released without being
      logged or written lasts there only until the block is read from disk again. */
  lemma ReadsLastStore<D>(ss: seq<State<D>>, es: seq<Event<D>>, n: nat, b: nat, key: Key)
    requires Run(ss, es) && n <= |es| && b < NBUF
    requires |ss[n].holder| == |ss[n].users| == |ss[n].c.bufs| == NBUF
    requires ss[n].holder[b].Some? && ss[n].c.bufs[b].valid && key in ss[n].users[b]
    ensures ss[n].c.bufs[b].key == key && key in ss[n].cur && ss[n].c.bufs[b].data == ss[n].cur[key]
  {
    RunInv(ss, es, n);
    assert BufOk(ss[n], b);
  }

  /** The first n events never released a changed buffer without logging or writing it. */
  ghost predicate Disciplined<D>(ss: seq<State<D>>, es: seq<Event<D>>, n: nat)
    requires Run(ss, es) && n <= |es|
  {
    forall i :: 0 <= i < n && es[i].Unlock? ==> !ss[i].dirty[es[i].b]
  }

  /** What was last stored to the block, by the events alone; at first what the disk had. */
  ghost function LastStored<D>(ss: seq<State<D>>, es: seq<Event<D>>, n: nat, key: Key): D
    requires Run(ss, es) && n <= |es| && key in ss[0].disk
  {
    if n == 0 then ss[0].disk[key]
    else
      var e := es[n - 1];
      if e.Store? && ss[n - 1].c.bufs[e.b].key == key then e.data else LastStored(ss, es, n - 1, key)
  }

  lemma {:induction false} CurIsLast<D>(ss: seq<State<D>>, es: seq<Event<D>>, n: nat, key: Key)
    requires Run(ss, es) && n <= |es| && key in ss[0].disk && Disciplined(ss, es, n)
    ensures ss[n].stray == {} && key in ss[n].cur && ss[n].cur[key] == LastStored(ss, es, n, key)
  {
    hide Inv, Get, Release, Shaped;
    if n > 0 {
      CurIsLast(ss, es, n - 1, key);
      assert ss[n - 1 + 1] == Next(ss[n - 1], es[n - 1]);
    }
  }

  /** With that discipline, every reader sees what was last stored to the block it asked for. */
  lemma ReadsLastStored<D>(ss: seq<State<D>>, es: seq<Event<D>>, n: nat, b: nat, key: Key)
    requires Run(ss, es) && n <= |es| && b < NBUF && key in ss[0].disk && Disciplined(ss, es, n)
    requires |ss[n].holder| == |ss[n].users| == |ss[n].c.bufs| == NBUF
    requires ss[n].holder[b].Some? && ss[n].c.bufs[b].valid && key in ss[n].users[b]
    ensures ss[n].c.bufs[b].key == key && ss[n].c.bufs[b].data == LastStored(ss, es, n, key)
  {
    ReadsLastStore(ss, es, n, b, key);
    CurIsLast(ss, es, n, key);
  }

  /** In every run each block has at most one buffer, the list is a permutation of the buffers, and
      a buffer that is in use or pinned survives any bget. */
  lemma NeverRecycledInUse<D>(ss: seq<State<D>>, es: seq<Event<D>>, n: nat, key: Key, b: nat)
    requires Run(ss, es) && n <= |es| && key in ss[n].disk && b < NBUF
    ensures var s := ss[n];
            && Sized(s)
            && (forall a :: 0 <= a < NBUF && a != b && s.c.bufs[b].key.dev != 0 ==> s.c.bufs[a].key != s.c.bufs[b].key)
            && (Get(s.c, key).Some? && (s.pins[b] > 0 || s.users[b] != multiset{}) ==>
                var c := Get(s.c, key).value.0;
                |c.bufs| == NBUF && c.bufs[b].key == s.c.bufs[b].key
                && c.bufs[b].data == s.c.bufs[b].data && c.bufs[b].valid == s.c.bufs[b].valid)
  {
    RunInv(ss, es, n);
    if Get(ss[n].c, key).Some? { GetFacts(ss[n], key); }
  }

  /** In every run, what bget recycles is the least recently used of the free buffers. */
  lemma RecyclesOldest<D>(ss: seq<State<D>>, es: seq<Event<D>>, n: nat, b: nat)
    requires Run(ss, es) && n <= |es| && b < NBUF
    ensures var s := ss[n];
            && Sized(s)
            && var v := Victim(s.c.bufs, s.c.order, |s.c.order|);
               s.c.bufs[b].refcnt == 0 ==> v.Some? && s.stamp[v.value] <= s.stamp[b]
  {
    RunInv(ss, es, n);
    var s := ss[n];
    assert s.c.order[Index(s.c.order, b)] == b;
    if Victim(s.c.bufs, s.c.order, |s.c.order|).Some? { VictimOldest(s, |s.c.order|); }
  }

  lemma {:induction false} VictimOldest<D>(s: State<D>, i: nat)
    requires Sized(s) && Recency(s) && i <= |s.c.order| && Victim(s.c.bufs, s.c.order, i).Some?
    requires forall j :: i <= j < |s.c.order| ==> s.c.bufs[s.c.order[j]].refcnt > 0
    ensures forall b :: 0 <= b < NBUF && s.c.bufs[b].refcnt == 0 ==>
              s.stamp[Victim(s.c.bufs, s.c.order, i).value] <= s.stamp[b]
  {
    if s.c.bufs[s.c.order[i - 1]].refcnt == 0 {
      forall b | 0 <= b < NBUF && s.c.bufs[b].refcnt == 0 ensures s.stamp[s.c.order[i - 1]] <= s.stamp[b] {
        assert Index(s.c.order, b) <= i - 1;
      }
    } else {
      VictimOldest(s, i - 1);
    }
  }
}
