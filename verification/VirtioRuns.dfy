/** The driver of kernel/virtio_disk.c against a device that takes and completes requests in any order:
    virtio_disk_rw and virtio_disk_intr as steps over the shared rings of section 2.6 of VIRTIO 1.1. */
module VirtioRuns {
  import opened Basics
  import opened VirtioQueue

  const WRAP: nat := 0x1_0000     // ring indices are 16 bits wide

  datatype Req = Req(kind: nat, reserved: nat, sector: nat)

  datatype Info = Info(b: Option<nat>, status: nat)

  /** Where a request is: written to the ring but not announced, announced, taken by the device,
      completed by it, or noticed by the interrupt handler. */
  datatype Stage = Prepared | Posted | InDevice | Completed | Cleared

  /** A request in flight, by its head descriptor: the other two descriptors, what was asked for, and its
      position in the history of submissions and of completions. */
  datatype Chain = Chain(d: nat, t: nat, buf: nat, write: bool, block: Uint, stage: Stage, at: nat, fin: nat)

  /** Memory shared with the device, the driver's own state, disk and buffer contents, and history. */
  datatype State<!D> = State(
    free: seq<bool>, desc: seq<Desc>, ops: seq<Req>, info: seq<Info>,
    availIdx: nat, availRing: seq<nat>, usedIdx: nat,
    devIdx: nat, usedRing: seq<nat>, devAvail: nat,
    busy: set<nat>, image: map<nat, D>, data: map<nat, D>,
    live: map<nat, Chain>, owner: seq<nat>, carrier: map<nat, nat>,
    sub: seq<nat>, taken: nat, done: seq<nat>, handled: nat, prepared: Option<nat>)

  datatype Event =
    | Prepare(h: nat, d: nat, t: nat, buf: nat, write: bool, block: Uint)  // virtio_disk_rw up to the ring entry
    | Publish                                                             // avail->idx += 1
    | Take                                                                // the device reads the next ring entry
    | Complete(h: nat)                                                    // the device finishes a request
    | Intr                                                                // one turn of virtio_disk_intr's loop
    | Finish(h: nat)                                                      // virtio_disk_rw after its wait

  predicate Sized<D(!new)>(s: State<D>) {
    && |s.free| == NUM && |s.desc| == NUM && |s.ops| == NUM && |s.info| == NUM && |s.owner| == NUM
    && |s.availRing| == NUM && |s.usedRing| == NUM
  }

  /** `b->blockno * (BSIZE / 512)`, computed in 32 bits. */
  function Sector(block: Uint): nat {
    block * 2 % 0x1_0000_0000
  }

  /** Sectors stand for blocks, and different blocks for different sectors, exactly on disks of at most
      2^31 blocks. */
  lemma SectorExact(size: nat)
    requires size <= 0x1_0000_0000
    ensures (forall a: Uint :: a < size ==> Sector(a) == a * 2) <==> size <= 0x8000_0000
    ensures (forall a: Uint, b: Uint :: a < b < size ==> Sector(a) != Sector(b)) <==> size <= 0x8000_0000
  {
    if size > 0x8000_0000 { assert Sector(0) == Sector(0x8000_0000) == 0; }
  }

  /** What the device makes of the chain at h: header, data buffer and status byte. */
  datatype Command = Command(head: nat, buf: nat, writable: bool, status: nat) | Malformed

  function Decode(desc: seq<Desc>, h: nat): Command {
    if h < |desc| && HasNext(desc[h]) && desc[h].next < |desc| && desc[h].addr.Header? then
      var d := desc[h].next;
      if HasNext(desc[d]) && desc[d].next < |desc| && desc[d].addr.Data? then
        var t := desc[d].next;
        if !HasNext(desc[t]) && desc[t].addr.Status? && desc[t].flags / 2 % 2 == 1
        then Command(desc[h].addr.i, desc[d].addr.buf, desc[d].flags / 2 % 2 == 1, desc[t].addr.i)
        else Malformed
      else Malformed
    else Malformed
  }

  predicate Enabled<D(!new)>(s: State<D>, e: Event)
    requires Sized(s)
  {
    match e
    case Prepare(h, d, t, buf, write, block) =>
      s.prepared == None && h < NUM && d < NUM && t < NUM && h != d && h != t && d != t
      && s.free[h] && s.free[d] && s.free[t] && buf !in s.carrier && buf in s.data && Sector(block) in s.image
    case Publish => s.prepared.Some?
    case Take => s.devAvail != s.availIdx
    case Complete(h) =>
      h in s.live && s.live[h].stage == InDevice && var c := Decode(s.desc, h);
      c.Command? && c.head < NUM && c.status < NUM && c.buf in s.data && s.ops[c.head].sector in s.image
    case Intr =>
      s.prepared == None && s.usedIdx != s.devIdx
      && s.usedRing[s.usedIdx % NUM] < NUM && s.usedRing[s.usedIdx % NUM] in s.live
    case Finish(h) =>
      s.prepared == None && h in s.live && s.live[h].stage == Cleared
      && h < NUM && s.desc[h].next < NUM && s.desc[s.desc[h].next].next < NUM
  }

  /** Lines 238-272: the header, three descriptors, status, buffer flag and ring entry. */
  function Formatted<D(!new)>(s: State<D>, h: nat, d: nat, t: nat, buf: nat, write: bool, block: Uint): State<D>
    requires Sized(s) && h < NUM && d < NUM && t < NUM
  {
    s.(free := s.free[h := false][d := false][t := false],
       ops := s.ops[h := Req(if write then 1 else 0, 0, Sector(block))],
       desc := s.desc[h := Desc(Header(h), 16, F_NEXT, d)]
                     [d := Desc(Data(buf), 1024, (if write then 0 else F_WRITE) + F_NEXT, t)]
                     [t := Desc(Status(h), 1, F_WRITE, 0)],
       info := s.info[h := Info(Some(buf), 0xff)],
       busy := s.busy + {buf},
       availRing := s.availRing[s.availIdx % NUM := h],
       live := s.live[h := Chain(d, t, buf, write, block, Prepared, |s.sub|, 0)],
       owner := s.owner[h := h][d := h][t := h],
       carrier := s.carrier[buf := h],
       prepared := Some(h))
  }

  function Next<D(!new)>(s: State<D>, e: Event): State<D>
    requires Sized(s) && Enabled(s, e)
  {
    match e
    case Prepare(h, d, t, buf, write, block) => Formatted(s, h, d, t, buf, write, block)
    case Publish =>
      var h := s.prepared.value;
      s.(availIdx := (s.availIdx + 1) % WRAP, sub := s.sub + [h], prepared := None,
         live := if h in s.live then s.live[h := s.live[h].(stage := Posted)] else s.live)
    case Take =>
      var h := s.availRing[s.devAvail % NUM];
      s.(devAvail := (s.devAvail + 1) % WRAP, taken := s.taken + 1,
         live := if h in s.live then s.live[h := s.live[h].(stage := InDevice)] else s.live)
    case Complete(h) =>
      var c := Decode(s.desc, h);
      var sector := s.ops[c.head].sector;
      s.(image := if s.ops[c.head].kind == 1 then s.image[sector := s.data[c.buf]] else s.image,
         data := if s.ops[c.head].kind == 1 then s.data else s.data[c.buf := s.image[sector]],
         info := s.info[c.status := s.info[c.status].(status := 0)],
         usedRing := s.usedRing[s.devIdx % NUM := h], devIdx := (s.devIdx + 1) % WRAP,
         done := s.done + [h], live := s.live[h := s.live[h].(stage := Completed, fin := |s.done|)])
    case Intr =>
      var id := s.usedRing[s.usedIdx % NUM];
      s.(busy := if s.info[id].b.Some? then s.busy - {s.info[id].b.value} else s.busy,
         usedIdx := (s.usedIdx + 1) % WRAP, handled := s.handled + 1,
         live := s.live[id := s.live[id].(stage := Cleared)])
    case Finish(h) =>
      var d := s.desc[h].next;            // free_chain follows the descriptors
      var t := s.desc[d].next;
      s.(info := s.info[h := s.info[h].(b := None)],
         free := s.free[h := true][d := true][t := true],
         desc := s.desc[h := CLEAR][d := CLEAR][t := CLEAR],
         owner := s.owner[h := NUM][d := NUM][t := NUM],
         live := s.live - {h}, carrier := s.carrier - {s.live[h].buf})
  }

  predicate Initial<D(!new)>(s: State<D>) {
    && Sized(s) && (forall i :: 0 <= i < NUM ==> s.free[i] && s.owner[i] == NUM)
    && s.availIdx == 0 && s.usedIdx == 0 && s.devIdx == 0 && s.devAvail == 0
    && s.busy == {} && s.live == map[] && s.carrier == map[] && s.sub == [] && s.taken == 0 && s.done == []
    && s.handled == 0
    && s.prepared == None
  }

  // ---- Invariant ----

  /** A request in flight: its triple is its own, formatted as submitted; its buffer is waiting exactly
      until the interrupt handler has seen it; its place in the histories is as recorded. */
  ghost predicate ChainOk<D(!new)>(s: State<D>, h: nat)
    requires Sized(s)
  {
    h in s.live && var c := s.live[h];
    && h < NUM && c.d < NUM && c.t < NUM && h != c.d && h != c.t && c.d != c.t
    && s.owner[h] == h && s.owner[c.d] == h && s.owner[c.t] == h
    && s.ops[h] == Req(if c.write then 1 else 0, 0, Sector(c.block))
    && s.desc[h] == Desc(Header(h), 16, F_NEXT, c.d)
    && s.desc[c.d] == Desc(Data(c.buf), 1024, (if c.write then 0 else F_WRITE) + F_NEXT, c.t)
    && s.desc[c.t] == Desc(Status(h), 1, F_WRITE, 0)
    && s.info[h].b == Some(c.buf) && c.buf in s.carrier && s.carrier[c.buf] == h
    && c.buf in s.data && Sector(c.block) in s.image
  }

  ghost predicate StageOk<D(!new)>(s: State<D>, h: nat)
    requires Sized(s)
  {
    h in s.live && h < NUM && var c := s.live[h];
    && (c.buf in s.busy <==> c.stage != Cleared)
    && (c.stage == Completed || c.stage == Cleared ==> s.info[h].status == 0)
    && (c.stage == Prepared <==> s.prepared == Some(h))
    && (c.stage == Posted ==> s.taken <= c.at < |s.sub| && s.sub[c.at] == h)
    && (c.stage == Completed ==> s.handled <= c.fin < |s.done| && s.done[c.fin] == h)
  }

  ghost predicate OwnerOk<D(!new)>(s: State<D>, i: nat)
    requires Sized(s)
  {
    i < NUM ==>
      && (s.free[i] <==> s.owner[i] == NUM)
      && (s.owner[i] != NUM ==>
            s.owner[i] in s.live && (i == s.owner[i] || i == s.live[s.owner[i]].d || i == s.live[s.owner[i]].t))
  }

  /** An announced entry that the device has not taken is intact in its slot. */
  ghost predicate SubOk<D(!new)>(s: State<D>, k: nat)
    requires Sized(s)
  {
    s.taken <= k < |s.sub| ==>
      s.sub[k] in s.live && s.live[s.sub[k]].stage == Posted && s.live[s.sub[k]].at == k
      && s.availRing[k % NUM] == s.sub[k]
  }

  /** A completion that the driver has not handled is intact in its slot. */
  ghost predicate DoneOk<D(!new)>(s: State<D>, k: nat)
    requires Sized(s)
  {
    s.handled <= k < |s.done| ==>
      s.done[k] in s.live && s.live[s.done[k]].stage == Completed && s.live[s.done[k]].fin == k
      && s.usedRing[k % NUM] == s.done[k]
  }

  ghost predicate Inv<D(!new)>(s: State<D>) {
    && Sized(s)
    && (forall h {:trigger ChainOk(s, h)} :: h in s.live ==> ChainOk(s, h))
    && (forall h {:trigger StageOk(s, h)} :: h in s.live ==> StageOk(s, h))
    && (forall i: nat {:trigger OwnerOk(s, i)} :: OwnerOk(s, i))
    && (forall b :: b in s.carrier ==> s.carrier[b] in s.live && s.live[s.carrier[b]].buf == b)
    && (forall k: nat {:trigger SubOk(s, k)} :: SubOk(s, k))
    && (forall k: nat {:trigger DoneOk(s, k)} :: DoneOk(s, k))
    && s.taken <= |s.sub| && s.handled <= |s.done|
    && s.availIdx == |s.sub| % WRAP && s.devAvail == s.taken % WRAP && s.devIdx == |s.done| % WRAP
    && s.usedIdx == s.handled % WRAP
    && (s.prepared.Some? ==>
          && s.prepared.value in s.live && s.live[s.prepared.value].at == |s.sub|
          && s.availRing[|s.sub| % NUM] == s.prepared.value)
  }

  // ---- Counting ----

  lemma RingSlot(t: nat)
    ensures t % WRAP % NUM == t % NUM && (t % WRAP + 1) % WRAP == (t + 1) % WRAP
  {
    assert t == WRAP * (t / WRAP) + t % WRAP;
    assert WRAP * (t / WRAP) == NUM * (0x2000 * (t / WRAP));
  }

  /** Index comparison is exact across the wrap, because at most NUM entries are outstanding. */
  lemma WrapExact(a: nat, b: nat)
    requires a <= b <= a + NUM
    ensures a % WRAP == b % WRAP <==> a == b
  {
    assert a == WRAP * (a / WRAP) + a % WRAP && b == WRAP * (b / WRAP) + b % WRAP;
  }

  lemma SlotsDiffer(a: nat, b: nat)
    requires a < b < a + NUM
    ensures a % NUM != b % NUM
  {
  }

  /** Distinct descriptor numbers are at most NUM. */
  lemma Few(s: seq<nat>)
    requires Distinct(s) && forall i :: 0 <= i < |s| ==> s[i] < NUM
    ensures |s| <= NUM
  {
    Count(s, NUM);
  }

  lemma {:induction false} Count(s: seq<nat>, n: nat)
    requires Distinct(s) && forall i :: 0 <= i < |s| ==> s[i] < n
    ensures |s| <= n
    decreases n
  {
    if s != [] {
      assert s[0] < n;
      if i :| 0 <= i < |s| && s[i] == n - 1 {
        var r := s[..i] + s[i + 1..];
        assert forall j :: 0 <= j < |r| ==> r[j] == if j < i then s[j] else s[j + 1];
        Count(r, n - 1);
      } else {
        Count(s, n - 1);
      }
    }
  }

  lemma OutstandingSubs<D(!new)>(s: State<D>)
    requires Inv(s)
    ensures |s.sub| - s.taken <= NUM
    ensures forall h: nat {:trigger h in s.live} :: h < NUM && (h in s.live ==> s.live[h].stage != Posted) ==>
              |s.sub| - s.taken < NUM
  {
    hide StageOk, OwnerOk, DoneOk;
    var q: seq<nat> := s.sub[s.taken..];
    forall i, j | 0 <= i < j < |q| ensures q[i] != q[j] { assert SubOk(s, s.taken + i) && SubOk(s, s.taken + j); }
    forall i | 0 <= i < |q| ensures q[i] < NUM && q[i] in s.live && s.live[q[i]].stage == Posted {
      assert SubOk(s, s.taken + i) && ChainOk(s, q[i]);
    }
    Few(q);
    forall h: nat | h < NUM && (h in s.live ==> s.live[h].stage != Posted) ensures |s.sub| - s.taken < NUM {
      Few(q + [h]);
    }
  }

  lemma OutstandingDone<D(!new)>(s: State<D>)
    requires Inv(s)
    ensures |s.done| - s.handled <= NUM
    ensures forall h: nat {:trigger h in s.live} :: h < NUM && (h in s.live ==> s.live[h].stage != Completed) ==>
              |s.done| - s.handled < NUM
  {
    hide StageOk, OwnerOk, SubOk;
    var q: seq<nat> := s.done[s.handled..];
    forall i, j | 0 <= i < j < |q| ensures q[i] != q[j] { assert DoneOk(s, s.handled + i) && DoneOk(s, s.handled + j); }
    forall i | 0 <= i < |q| ensures q[i] < NUM && q[i] in s.live && s.live[q[i]].stage == Completed {
      assert DoneOk(s, s.handled + i) && ChainOk(s, q[i]);
    }
    Few(q);
    forall h: nat | h < NUM && (h in s.live ==> s.live[h].stage != Completed) ensures |s.done| - s.handled < NUM {
      Few(q + [h]);
    }
  }

  // ---- Every step keeps the invariant ----

  /** What one step's proof uses about requests: the one it concerns and the one looked at. */
  ghost predicate TwoOk<D(!new)>(s: State<D>, h: nat, g: nat) {
    Sized(s) && ChainOk(s, h) && StageOk(s, h) && ChainOk(s, g) && StageOk(s, g)
  }

  lemma PrepareChain<D(!new)>(s: State<D>, e: Event, g: nat)
    requires Sized(s) && e.Prepare? && Enabled(s, e) && e.h !in s.live
    requires (g in s.live ==> ChainOk(s, g) && StageOk(s, g))
    requires g in s.live ==> s.owner[e.h] == NUM && s.owner[e.d] == NUM && s.owner[e.t] == NUM
    requires g == e.h || g in s.live
    ensures Sized(Next(s, e)) && ChainOk(Next(s, e), g) && StageOk(Next(s, e), g)
  {
    hide Decode;
  }

  lemma PrepareInv<D(!new)>(s: State<D>, e: Event)
    requires Inv(s) && e.Prepare? && Enabled(s, e)
    ensures Inv(Next(s, e))
  {
    hide Decode, ChainOk, StageOk;
    var s', h := Next(s, e), e.h;
    assert OwnerOk(s, h) && OwnerOk(s, e.d) && OwnerOk(s, e.t);
    RingSlot(|s.sub|);
    NotLive(s, h);
    OutstandingSubs(s);
    forall g | g in s'.live ensures ChainOk(s', g) && StageOk(s', g) { PrepareChain(s, e, g); }
    forall i: nat ensures OwnerOk(s', i) { assert OwnerOk(s, i); }
    forall k: nat ensures SubOk(s', k) {
      assert SubOk(s, k);
      if s.taken <= k < |s.sub| { SlotsDiffer(k, |s.sub|); }
    }
    forall k: nat ensures DoneOk(s', k) { assert DoneOk(s, k); }
  }

  lemma NotLive<D(!new)>(s: State<D>, h: nat)
    requires Inv(s) && h < NUM && s.free[h]
    ensures h !in s.live && forall b :: b in s.carrier ==> s.carrier[b] != h
  {
    hide StageOk, SubOk, DoneOk;
    assert OwnerOk(s, h);
    assert h in s.live ==> ChainOk(s, h);
  }

  lemma PublishChain<D(!new)>(s: State<D>, g: nat)
    requires Sized(s) && Enabled(s, Publish) && TwoOk(s, s.prepared.value, g) && s.live[s.prepared.value].at == |s.sub|
    requires s.taken <= |s.sub|
    ensures Sized(Next(s, Publish)) && ChainOk(Next(s, Publish), g) && StageOk(Next(s, Publish), g)
  {
    hide Decode, Formatted;
  }

  lemma PublishInv<D(!new)>(s: State<D>)
    requires Inv(s) && Enabled(s, Publish)
    ensures Inv(Next(s, Publish))
  {
    hide Decode, Formatted, ChainOk, StageOk;
    var s', h := Next(s, Publish), s.prepared.value;
    PublishStage(s);
    RingSlot(|s.sub|);
    forall g | g in s'.live ensures ChainOk(s', g) && StageOk(s', g) { assert TwoOk(s, h, g); PublishChain(s, g); }
    forall i: nat ensures OwnerOk(s', i) { assert OwnerOk(s, i); }
    forall k: nat ensures SubOk(s', k) { assert SubOk(s, k); }
    forall k: nat ensures DoneOk(s', k) { assert DoneOk(s, k); }
  }

  lemma PublishStage<D(!new)>(s: State<D>)
    requires Inv(s) && s.prepared.Some?
    ensures s.live[s.prepared.value].stage == Prepared
  {
    assert StageOk(s, s.prepared.value);
  }

  lemma TakeFinds<D(!new)>(s: State<D>)
    requires Inv(s) && s.devAvail != s.availIdx
    ensures s.taken < |s.sub| && s.availRing[s.devAvail % NUM] == s.sub[s.taken]
    ensures var h := s.sub[s.taken]; h in s.live && s.live[h].stage == Posted && s.live[h].at == s.taken
  {
    hide ChainOk, StageOk, OwnerOk;
    OutstandingSubs(s);
    WrapExact(s.taken, |s.sub|);
    RingSlot(s.taken);
    assert SubOk(s, s.taken);
  }

  lemma TakeChain<D(!new)>(s: State<D>, g: nat)
    requires Sized(s) && Enabled(s, Take) && s.taken < |s.sub| && s.availRing[s.devAvail % NUM] == s.sub[s.taken]
    requires TwoOk(s, s.sub[s.taken], g) && s.live[s.sub[s.taken]].stage == Posted
    ensures Sized(Next(s, Take)) && ChainOk(Next(s, Take), g) && StageOk(Next(s, Take), g)
  {
    hide Decode, Formatted;
  }

  lemma TakeInv<D(!new)>(s: State<D>)
    requires Inv(s) && Enabled(s, Take)
    ensures Inv(Next(s, Take))
  {
    hide Decode, Formatted, ChainOk, StageOk;
    TakeFinds(s);
    RingSlot(s.taken);
    var s', h := Next(s, Take), s.sub[s.taken];
    forall g | g in s'.live ensures ChainOk(s', g) && StageOk(s', g) { assert TwoOk(s, h, g); TakeChain(s, g); }
    forall i: nat ensures OwnerOk(s', i) { assert OwnerOk(s, i); }
    forall k: nat ensures SubOk(s', k) { assert SubOk(s, k); }
    forall k: nat ensures DoneOk(s', k) { assert DoneOk(s, k); }
  }

  /** Following the descriptors in memory, the device finds exactly what was submitted. */
  lemma DecodesRequest<D(!new)>(s: State<D>, h: nat)
    requires Inv(s) && h in s.live
    ensures var c := s.live[h];
            && Decode(s.desc, h) == Command(h, c.buf, !c.write, h) && h < NUM
            && s.ops[h] == Req(if c.write then 1 else 0, 0, Sector(c.block))
            && c.buf in s.data && Sector(c.block) in s.image
  {
    assert ChainOk(s, h);
  }

  lemma CompleteChain<D(!new)>(s: State<D>, h: nat, g: nat)
    requires TwoOk(s, h, g) && Enabled(s, Complete(h)) && s.handled <= |s.done|
    requires Decode(s.desc, h) == Command(h, s.live[h].buf, !s.live[h].write, h)
    ensures Sized(Next(s, Complete(h))) && ChainOk(Next(s, Complete(h)), g) && StageOk(Next(s, Complete(h)), g)
  {
    hide Decode, Formatted;
  }

  lemma CompleteInv<D(!new)>(s: State<D>, h: nat)
    requires Inv(s) && Enabled(s, Complete(h))
    ensures Inv(Next(s, Complete(h)))
  {
    hide Decode, Formatted, ChainOk, StageOk;
    DecodesRequest(s, h);
    OutstandingDone(s);
    RingSlot(|s.done|);
    var s' := Next(s, Complete(h));
    forall g | g in s'.live ensures ChainOk(s', g) && StageOk(s', g) { assert TwoOk(s, h, g); CompleteChain(s, h, g); }
    forall i: nat ensures OwnerOk(s', i) { assert OwnerOk(s, i); }
    forall k: nat ensures SubOk(s', k) { assert SubOk(s, k); }
    forall k: nat ensures DoneOk(s', k) {
      assert DoneOk(s, k);
      if s.handled <= k < |s.done| { SlotsDiffer(k, |s.done|); }
    }
  }

  /** The interrupt handler finds status 0 and the buffer that was submitted, still waiting. */
  lemma IntrFinds<D(!new)>(s: State<D>)
    requires Inv(s) && s.usedIdx != s.devIdx
    ensures s.handled < |s.done|
    ensures var id := s.usedRing[s.usedIdx % NUM];
            && id == s.done[s.handled] && id < NUM && id in s.live && s.live[id].stage == Completed
            && s.live[id].fin == s.handled
            && s.info[id] == Info(Some(s.live[id].buf), 0) && s.live[id].buf in s.busy
  {
    hide OwnerOk, SubOk;
    OutstandingDone(s);
    WrapExact(s.handled, |s.done|);
    RingSlot(s.handled);
    assert DoneOk(s, s.handled);
    assert ChainOk(s, s.done[s.handled]) && StageOk(s, s.done[s.handled]);
  }

  lemma IntrChain<D(!new)>(s: State<D>, id: nat, g: nat)
    requires TwoOk(s, id, g) && Enabled(s, Intr) && id == s.usedRing[s.usedIdx % NUM]
    requires s.info[id].b == Some(s.live[id].buf)
    requires s.live[id].stage == Completed && s.live[id].fin == s.handled
    ensures Sized(Next(s, Intr)) && ChainOk(Next(s, Intr), g) && StageOk(Next(s, Intr), g)
  {
    hide Decode, Formatted;
  }

  lemma IntrInv<D(!new)>(s: State<D>)
    requires Inv(s) && Enabled(s, Intr)
    ensures Inv(Next(s, Intr))
  {
    hide Decode, Formatted, ChainOk, StageOk;
    IntrFinds(s);
    RingSlot(s.handled);
    var s', id := Next(s, Intr), s.done[s.handled];
    forall g | g in s'.live ensures ChainOk(s', g) && StageOk(s', g) { assert TwoOk(s, id, g); IntrChain(s, id, g); }
    forall i: nat ensures OwnerOk(s', i) { assert OwnerOk(s, i); }
    forall k: nat ensures SubOk(s', k) { assert SubOk(s, k); }
    forall k: nat ensures DoneOk(s', k) { assert DoneOk(s, k); }
  }

  lemma FinishChain<D(!new)>(s: State<D>, h: nat, g: nat)
    requires TwoOk(s, h, g) && Enabled(s, Finish(h)) && g != h
    ensures Sized(Next(s, Finish(h))) && ChainOk(Next(s, Finish(h)), g) && StageOk(Next(s, Finish(h)), g)
  {
    hide Decode, Formatted;
  }

  lemma FinishInv<D(!new)>(s: State<D>, h: nat)
    requires Inv(s) && Enabled(s, Finish(h))
    ensures Inv(Next(s, Finish(h)))
  {
    hide Decode, Formatted, StageOk, ChainOk;
    var s' := Next(s, Finish(h));
    Shape(s, h);
    forall b | b in s'.carrier ensures s'.carrier[b] in s'.live && s'.live[s'.carrier[b]].buf == b {}
    NotPrepared(s, h);
    forall g | g in s'.live ensures ChainOk(s', g) && StageOk(s', g) { assert TwoOk(s, h, g); FinishChain(s, h, g); }
    forall i: nat ensures OwnerOk(s', i) { assert OwnerOk(s, i); }
    forall k: nat ensures SubOk(s', k) { assert SubOk(s, k); }
    forall k: nat ensures DoneOk(s', k) { assert DoneOk(s, k); }
  }

  lemma Shape<D(!new)>(s: State<D>, h: nat)
    requires Inv(s) && h in s.live
    ensures var c := s.live[h];
            && h < NUM && c.d < NUM && c.t < NUM && h != c.d && h != c.t && c.d != c.t
            && s.owner[h] == h && s.owner[c.d] == h && s.owner[c.t] == h && c.buf in s.carrier && s.carrier[c.buf] == h
            && HasNext(s.desc[h]) && s.desc[h].next == c.d && HasNext(s.desc[c.d]) && s.desc[c.d].next == c.t
            && !HasNext(s.desc[c.t])
  {
    assert ChainOk(s, h);
  }

  lemma NotPrepared<D(!new)>(s: State<D>, h: nat)
    requires Inv(s) && h in s.live && s.live[h].stage == Cleared
    ensures s.prepared != Some(h)
  {
    assert StageOk(s, h);
  }

  lemma NextInv<D(!new)>(s: State<D>, e: Event)
    requires Inv(s) && Enabled(s, e)
    ensures Inv(Next(s, e))
  {
    hide Inv, Enabled, Next;
    match e
    case Prepare(_, _, _, _, _, _) => PrepareInv(s, e);
    case Publish => PublishInv(s);
    case Take => TakeInv(s);
    case Complete(h) => CompleteInv(s, h);
    case Intr => IntrInv(s);
    case Finish(h) => FinishInv(s, h);
  }

  // ---- Runs ----

  ghost predicate Run<D(!new)>(ss: seq<State<D>>, es: seq<Event>) {
    && |ss| == |es| + 1 && Initial(ss[0])
    && forall i :: 0 <= i < |es| ==> Sized(ss[i]) && Enabled(ss[i], es[i]) && ss[i + 1] == Next(ss[i], es[i])
  }

  lemma {:induction false} RunInv<D(!new)>(ss: seq<State<D>>, es: seq<Event>, i: nat)
    requires Run(ss, es) && i < |ss|
    ensures Inv(ss[i])
  {
    hide Inv, Enabled, Next, Initial;
    if i == 0 { InitialInv(ss[0]); } else { RunInv(ss, es, i - 1); NextInv(ss[i - 1], es[i - 1]); }
  }

  lemma InitialInv<D(!new)>(s: State<D>)
    requires Initial(s)
    ensures Inv(s)
  {
    forall i: nat ensures OwnerOk(s, i) {}
    forall k: nat ensures SubOk(s, k) && DoneOk(s, k) {}
  }

  /** The steps are as free as they look: the device may complete any request it has taken, the handler may
      run whenever the used index has moved, and a woken caller may always finish. */
  lemma NothingExcluded<D(!new)>(ss: seq<State<D>>, es: seq<Event>, i: nat, h: nat)
    requires Run(ss, es) && i < |ss|
    ensures var s := ss[i];
            && Sized(s)
            && (Enabled(s, Complete(h)) <==> h in s.live && s.live[h].stage == InDevice)
            && (Enabled(s, Intr) <==> s.prepared == None && s.usedIdx != s.devIdx)
            && (Enabled(s, Finish(h)) <==> s.prepared == None && h in s.live && s.live[h].buf !in s.busy)
  {
    hide Run;
    RunInv(ss, es, i);
    var s := ss[i];
    if h in s.live { DecodesRequest(s, h); Shape(s, h); assert StageOk(s, h); }
    if s.usedIdx != s.devIdx { IntrFinds(s); }
  }

  /** In every run, free_chain started at the head of a request in flight follows its three descriptors to
      the end and finds none of them free: all that FreeChain and FreeDesc ask for. */
  lemma ChainMayBeFreed<D(!new)>(ss: seq<State<D>>, es: seq<Event>, i: nat, h: nat)
    requires Run(ss, es) && i < |ss| && h in ss[i].live
    ensures Sized(ss[i]) && h < NUM
    ensures var s, d := ss[i], ss[i].desc[h].next;
            && d < NUM && var t := s.desc[d].next;
            && t < NUM && h != d && h != t && d != t && !s.free[h] && !s.free[d] && !s.free[t]
            && HasNext(s.desc[h]) && HasNext(s.desc[d]) && !HasNext(s.desc[t])
            && s.live[h].d == d && s.live[h].t == t
  {
    hide Run, ChainOk, StageOk, SubOk, DoneOk, HasNext;
    RunInv(ss, es, i);
    var s := ss[i];
    Shape(s, h);
    assert OwnerOk(s, h) && OwnerOk(s, s.live[h].d) && OwnerOk(s, s.live[h].t);
  }

  ghost function TripleOf<D(!new)>(s: State<D>, h: nat): set<nat>
    requires h in s.live
  {
    {h, s.live[h].d, s.live[h].t}
  }

  /** In every run, requests in flight own disjoint triples of descriptors, no buffer is in two of them,
      and a descriptor is marked free exactly when no request owns it. */
  lemma TriplesDisjoint<D(!new)>(ss: seq<State<D>>, es: seq<Event>, i: nat, h: nat, g: nat, x: nat)
    requires Run(ss, es) && i < |ss| && h in ss[i].live && x < NUM
    ensures Sized(ss[i]) && |TripleOf(ss[i], h)| == 3
    ensures g in ss[i].live && g != h ==>
              TripleOf(ss[i], h) !! TripleOf(ss[i], g) && ss[i].live[h].buf != ss[i].live[g].buf
    ensures ss[i].free[x] <==> forall k :: k in ss[i].live ==> x !in TripleOf(ss[i], k)
  {
    hide Run;
    RunInv(ss, es, i);
    var s := ss[i];
    assert ChainOk(s, h) && OwnerOk(s, x);
    assert g in s.live ==> ChainOk(s, g);
    if s.free[x] {
      forall k | k in s.live ensures x !in TripleOf(s, k) { assert ChainOk(s, k); }
    } else {
      assert x in TripleOf(s, s.owner[x]);
    }
  }

  /** In every run, ring slots are never reused early: the device always takes the oldest announced head,
      and the handler always finds the oldest completed one, across any number of index wraps. */
  lemma RingsInOrder<D(!new)>(ss: seq<State<D>>, es: seq<Event>, i: nat)
    requires Run(ss, es) && i < |ss|
    ensures var s := ss[i];
            && Sized(s) && (s.devAvail != s.availIdx <==> s.taken < |s.sub|)
            && (s.usedIdx != s.devIdx <==> s.handled < |s.done|)
    ensures var s := ss[i]; s.devAvail != s.availIdx ==> s.availRing[s.devAvail % NUM] == s.sub[s.taken]
    ensures var s := ss[i]; s.usedIdx != s.devIdx ==> s.usedRing[s.usedIdx % NUM] == s.done[s.handled]
  {
    hide Run;
    RunInv(ss, es, i);
    var s := ss[i];
    OutstandingSubs(s);
    OutstandingDone(s);
    WrapExact(s.taken, |s.sub|);
    WrapExact(s.handled, |s.done|);
    if s.devAvail != s.availIdx { TakeFinds(s); }
    if s.usedIdx != s.devIdx { IntrFinds(s); }
  }

  /** In every run, a completion transfers between the buffer and the block it was submitted with, and the
      interrupt that reports it finds status 0 and clears exactly that buffer. */
  lemma CompletionMatches<D(!new)>(ss: seq<State<D>>, es: seq<Event>, i: nat)
    requires Run(ss, es) && i < |es|
    ensures Sized(ss[i])
    ensures es[i].Complete? ==>
              var s, s', c := ss[i], ss[i + 1], ss[i].live[es[i].h];
              && Sector(c.block) in s.image && c.buf in s.data
              && (c.write ==> s'.image == s.image[Sector(c.block) := s.data[c.buf]] && s'.data == s.data)
              && (!c.write ==> s'.data == s.data[c.buf := s.image[Sector(c.block)]] && s'.image == s.image)
    ensures es[i].Intr? ==>
              var s, s', id := ss[i], ss[i + 1], ss[i].usedRing[ss[i].usedIdx % NUM];
              && id in s.live && id < NUM && s.info[id].status == 0
              && s.live[id].buf in s.busy && s'.busy == s.busy - {s.live[id].buf}
  {
    RunInv(ss, es, i);
    if es[i].Complete? { DecodesRequest(ss[i], es[i].h); }
    if es[i].Intr? { IntrFinds(ss[i]); }
  }
}
