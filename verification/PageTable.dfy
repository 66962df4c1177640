/** Sv39 page tables as kernel/vm.c keeps them: a three-level tree of 512-entry table pages, and the
    flat map from virtual page number to entry that it stands for. */
module PageTable {

  const PGSIZE: nat := 4096
  const MAXVA: nat := 0x40_0000_0000    // 1 << 38

  /** Physical pages are named by their page number, PA / PGSIZE. */
  type Table = s: seq<nat> | |s| == 512 witness seq(512, _ => 0)

  // ---- Entries ----

  predicate V(pte: nat) { pte % 2 == 1 }

  /** PTE2PA, as a page number. */
  function Ppn(pte: nat): nat { pte / 1024 }

  function Flags(pte: nat): nat { pte % 1024 }

  /** Some of PTE_R, PTE_W, PTE_X: the entry maps a page rather than pointing to a table. */
  predicate IsLeaf(pte: nat) { pte / 2 % 8 != 0 }

  /** PA2PTE(pa) | perm | PTE_V. */
  function Entry(ppn: nat, perm: nat): nat
    requires perm < 1024
  {
    ppn * 1024 + perm + (1 - perm % 2)
  }

  /** PA2PTE and PTE2PA round-trip, with the flags kept beside them. */
  lemma EntryRoundTrip(ppn: nat, perm: nat)
    requires perm < 1024
    ensures Ppn(Entry(ppn, perm)) == ppn && V(Entry(ppn, perm))
    ensures Flags(Entry(ppn, perm)) == perm + (1 - perm % 2)
    ensures IsLeaf(Entry(ppn, perm)) <==> perm / 2 % 8 != 0
  {
    var f := perm + (1 - perm % 2);
    assert f < 1024 && f / 2 == perm / 2;
    assert Entry(ppn, perm) / 2 == ppn * 512 + perm / 2;
    assert (ppn * 512 + perm / 2) % 8 == perm / 2 % 8 by {
      assert ppn * 512 == 8 * (ppn * 64);
    }
  }

  lemma EntryBits(ppn: nat, perm: nat)
    requires perm < 1024
    ensures Entry(ppn, perm) / 4 % 2 == perm / 4 % 2 && Entry(ppn, perm) / 16 % 2 == perm / 16 % 2
  {
    var f := perm + (1 - perm % 2);
    ValidBit(perm);
    Quarter(ppn, f);
    Sixteenth(ppn, f);
  }

  lemma ValidBit(perm: nat)
    ensures var f := perm + (1 - perm % 2); f / 4 == perm / 4 && f / 16 == perm / 16
  {
    var h := perm / 2;
    assert (perm + (1 - perm % 2)) / 2 == h;
    assert perm / 4 == h / 2 && perm / 16 == h / 8;
  }

  lemma Quarter(ppn: nat, f: nat)
    ensures (ppn * 1024 + f) / 4 % 2 == f / 4 % 2
  {
    FourTimes(ppn * 256 + f / 4, f % 4);
    assert ppn * 1024 + f == 4 * (ppn * 256 + f / 4) + f % 4;
    EvenMore(ppn * 128, f / 4);
  }

  lemma FourTimes(q: nat, r: nat)
    requires r < 4
    ensures (4 * q + r) / 4 == q
  {
  }

  lemma EvenMore(a: nat, q: nat)
    ensures (2 * a + q) % 2 == q % 2
  {
  }

  lemma Sixteenth(ppn: nat, f: nat)
    ensures (ppn * 1024 + f) / 16 % 2 == f / 16 % 2
  {
    SixteenTimes(ppn * 64 + f / 16, f % 16);
    assert ppn * 1024 + f == 16 * (ppn * 64 + f / 16) + f % 16;
    EvenMore(ppn * 32, f / 16);
  }

  lemma SixteenTimes(q: nat, r: nat)
    requires r < 16
    ensures (16 * q + r) / 16 == q
  {
  }

  // ---- Addresses ----

  /** The page number of an address. */
  function Vpn(va: nat): nat { va / PGSIZE }

  predicate OnPage(a: nat) { a % PGSIZE == 0 }

  lemma Aligned(a: nat)
    requires OnPage(a)
    ensures a == Vpn(a) * PGSIZE
  {
  }

  lemma VpnOf(v: nat)
    ensures Vpn(v * PGSIZE) == v
  {
  }

  /** PX(level, va). */
  function PX(level: nat, va: nat): nat
    requires level <= 2
  {
    va / (if level == 0 then 0x1000 else if level == 1 then 0x20_0000 else 0x4000_0000) % 512
  }

  /** The three indices are the base-512 digits of the page number. */
  lemma PXDigits(va: nat)
    requires va < MAXVA
    ensures var v := Vpn(va);
            PX(0, va) == v % 512 && PX(1, va) == v / 512 % 512 && PX(2, va) == v / 512 / 512 < 512
  {
    assert va / 0x20_0000 == va / 0x1000 / 512;
    assert va / 0x4000_0000 == va / 0x20_0000 / 512;
  }

  // ---- The tree ----

  /** Position of a table: the root is (2, 0), and entry i of (l, p) leads to (l - 1, 512 p + i). */
  datatype Pos = Pos(level: nat, prefix: nat)

  predicate IsPos(q: Pos) {
    (q.level == 2 && q.prefix == 0) || (q.level == 1 && q.prefix < 512) || (q.level == 0 && q.prefix < 512 * 512)
  }

  function Child(q: Pos, i: nat): Pos
    requires q.level > 0
  {
    Pos(q.level - 1, 512 * q.prefix + i)
  }

  function Parent(q: Pos): Pos {
    Pos(q.level + 1, q.prefix / 512)
  }

  /** A table tree: `at` says which table page sits at each position, `place` is its inverse. */
  datatype Tree = Tree(root: nat, tables: map<nat, Table>, at: map<Pos, nat>, place: map<nat, Pos>)

  ghost predicate PosOk(t: Tree, q: Pos) {
    && IsPos(q) && q in t.at && t.at[q] in t.tables && t.at[q] in t.place && t.place[t.at[q]] == q
    && (q.level < 2 ==> Parent(q) in t.at)
  }

  ghost predicate PageOk(t: Tree, x: nat) {
    x in t.tables && x in t.place && t.place[x] in t.at && t.at[t.place[x]] == x
  }

  /** An upper-level entry is valid exactly when there is a table below it, and then points to it. */
  ghost predicate LinkOk(t: Tree, q: Pos, i: nat)
    requires q in t.at && t.at[q] in t.tables && q.level > 0 && i < 512
  {
    var e := t.tables[t.at[q]][i];
    && (V(e) <==> Child(q, i) in t.at)
    && (V(e) ==> !IsLeaf(e) && Ppn(e) == t.at[Child(q, i)])
  }

  ghost predicate Formed(t: Tree) {
    && Pos(2, 0) in t.at && t.at[Pos(2, 0)] == t.root
    && (forall q {:trigger PosOk(t, q)} :: q in t.at ==> PosOk(t, q))
    && (forall x {:trigger PageOk(t, x)} :: x in t.tables ==> PageOk(t, x))
    && (forall x :: x in t.place ==> x in t.tables)
    && (forall q, i {:trigger LinkOk(t, q, i)} :: q in t.at && PosOk(t, q) && q.level > 0 && 0 <= i < 512 ==>
          LinkOk(t, q, i))
  }

  /** The flat map: the entry of virtual page v, 0 where there is no table for it. */
  function Leaf(t: Tree, v: nat): nat {
    var q := Pos(0, v / 512);
    if q in t.at && t.at[q] in t.tables then t.tables[t.at[q]][v % 512] else 0
  }

  ghost predicate SameLeaves(t: Tree, t': Tree) {
    forall v: nat :: Leaf(t', v) == Leaf(t, v)
  }

  lemma SameLeavesRefl(t: Tree)
    ensures SameLeaves(t, t)
  {
  }

  /** What the hardware finds: three lookups from the root, section 4.4 of the RISC-V Privileged
      Architecture. */
  function Translate(tables: map<nat, Table>, root: nat, va: nat): nat {
    if root !in tables || !V(tables[root][PX(2, va)]) then 0
    else
      var a := Ppn(tables[root][PX(2, va)]);
      if a !in tables || !V(tables[a][PX(1, va)]) then 0
      else
        var b := Ppn(tables[a][PX(1, va)]);
        if b !in tables then 0 else tables[b][PX(0, va)]
  }

  /** The tree refines the flat map: hardware translation of any address below MAXVA is its entry there. */
  lemma TranslateIsLeaf(t: Tree, va: nat)
    requires Formed(t) && va < MAXVA
    ensures Translate(t.tables, t.root, va) == Leaf(t, Vpn(va))
  {
    var v := Vpn(va);
    PXDigits(va);
    var q2, q1, q0 := Pos(2, 0), Pos(1, v / 512 / 512), Pos(0, v / 512);
    assert PosOk(t, q2) && LinkOk(t, q2, v / 512 / 512);
    assert Child(q2, v / 512 / 512) == q1 && Parent(q0) == q1;
    if q1 in t.at {
      assert PosOk(t, q1) && LinkOk(t, q1, v / 512 % 512);
      assert Child(q1, v / 512 % 512) == q0;
    }
    if q0 in t.at { assert PosOk(t, q0); }
  }

  lemma Rooted(t: Tree)
    requires Formed(t)
    ensures Pos(2, 0) in t.at && t.at[Pos(2, 0)] == t.root && t.root in t.tables
  {
    assert PosOk(t, Pos(2, 0));
  }

  lemma Present(t: Tree, q: Pos)
    requires Formed(t) && q in t.at
    ensures t.at[q] in t.tables
  {
    assert PosOk(t, q);
  }

  // ---- Growing and changing the tree ----

  function Blank(): Table { seq(512, _ => 0) }

  /** A zeroed table x entered below position q at index i. */
  function Grown(t: Tree, q: Pos, i: nat, x: nat): Tree
    requires q in t.at && t.at[q] in t.tables && q.level > 0 && i < 512
  {
    var a := t.at[q];
    Tree(t.root, t.tables[a := t.tables[a][i := Entry(x, 0)]][x := Blank()],
         t.at[Child(q, i) := x], t.place[x := Child(q, i)])
  }

  ghost predicate Growable(t: Tree, q: Pos, i: nat, x: nat) {
    && Formed(t) && q in t.at && t.at[q] in t.tables && q.level > 0 && i < 512
    && x !in t.tables && Child(q, i) !in t.at
  }

  lemma GrownFormed(t: Tree, q: Pos, i: nat, x: nat)
    requires Growable(t, q, i, x)
    ensures Formed(Grown(t, q, i, x))
  {
    var t', c := Grown(t, q, i, x), Child(q, i);
    assert PosOk(t, q);
    assert Parent(c) == q && IsPos(c);
    forall p | p in t'.at ensures PosOk(t', p) { assert p != c ==> PosOk(t, p); }
    forall y | y in t'.tables ensures PageOk(t', y) { assert y != x ==> PageOk(t, y); }
    forall p, j | p in t'.at && PosOk(t', p) && p.level > 0 && 0 <= j < 512 ensures LinkOk(t', p, j) {
      GrownLink(t, q, i, x, p, j);
    }
  }

  /** An empty table changes no translation. */
  lemma GrownLeaf(t: Tree, q: Pos, i: nat, x: nat)
    requires Growable(t, q, i, x)
    ensures SameLeaves(t, Grown(t, q, i, x))
  {
    assert PosOk(t, q);
    forall v: nat ensures Leaf(Grown(t, q, i, x), v) == Leaf(t, v) {
      var p := Pos(0, v / 512);
      if p in t.at { assert PosOk(t, p); }
    }
  }

  lemma GrownLink(t: Tree, q: Pos, i: nat, x: nat, p: Pos, j: nat)
    requires Growable(t, q, i, x)
    requires var t' := Grown(t, q, i, x); p in t'.at && t'.at[p] in t'.tables && p.level > 0 && j < 512
    ensures LinkOk(Grown(t, q, i, x), p, j)
  {
    hide Entry;
    var t', c := Grown(t, q, i, x), Child(q, i);
    assert PosOk(t, q);
    EntryRoundTrip(x, 0);
    if p == c {
      assert Child(c, j) in t.at ==> PosOk(t, Child(c, j)) && Parent(Child(c, j)) == c;
    } else {
      assert PosOk(t, p) && LinkOk(t, p, j);
      if p != q { assert t.at[p] != t.at[q]; }
      if Child(p, j) == c { assert Parent(c) == q && Parent(Child(p, j)) == p; }
    }
  }

  /** Entry v of the flat map replaced. */
  function Put(t: Tree, v: nat, pte: nat): Tree
    requires Pos(0, v / 512) in t.at && t.at[Pos(0, v / 512)] in t.tables
  {
    var a := t.at[Pos(0, v / 512)];
    t.(tables := t.tables[a := t.tables[a][v % 512 := pte]])
  }

  /** Writing a bottom-level entry changes that entry of the flat map and no other. */
  lemma PutFormed(t: Tree, v: nat, pte: nat)
    requires Formed(t) && Pos(0, v / 512) in t.at && t.at[Pos(0, v / 512)] in t.tables
    ensures Formed(Put(t, v, pte)) && Put(t, v, pte).tables.Keys == t.tables.Keys
  {
    var t', q := Put(t, v, pte), Pos(0, v / 512);
    assert PosOk(t, q);
    forall p | p in t'.at ensures PosOk(t', p) { assert PosOk(t, p); }
    forall y | y in t'.tables ensures PageOk(t', y) { assert PageOk(t, y); }
    forall p, j | p in t'.at && PosOk(t', p) && p.level > 0 && 0 <= j < 512 ensures LinkOk(t', p, j) {
      assert PosOk(t, p) && LinkOk(t, p, j);
    }
  }

  lemma PutLeaf(t: Tree, v: nat, pte: nat)
    requires Formed(t) && Pos(0, v / 512) in t.at && t.at[Pos(0, v / 512)] in t.tables
    ensures forall w: nat :: Leaf(Put(t, v, pte), w) == if w == v then pte else Leaf(t, w)
  {
    var t', q := Put(t, v, pte), Pos(0, v / 512);
    assert PosOk(t, q);
    forall w: nat ensures Leaf(t', w) == if w == v then pte else Leaf(t, w) {
      var p := Pos(0, w / 512);
      if p in t.at { assert PosOk(t, p); }
      if p == q && w != v { assert w % 512 != v % 512; }
    }
  }
}
