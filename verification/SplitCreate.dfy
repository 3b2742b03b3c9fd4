/** Creates whose two halves are apart: between the reservation and the end block anything may
    happen, other creates included. The end block is placed by reading log_offset again, without the
    mutex and before the block is stored. */
module SplitCreate {
  import opened Basics
  import opened Bits
  import opened FileBackend
  import opened FileBackendTheorems

  /** The backend, the creates begun and not yet ended, and the offset each has read for its end block. */
  datatype Split = Split(g: State, begun: map<nat, Region>, seen: map<nat, nat>)

  datatype Step =
    | Begin(i: nat, size: nat)            // create, under the mutex; of any size, zero included
    | Look(i: nat)                        // create, reading log_offset again without the mutex
    | Block(i: nat, block: seq<byte>)     // create's end block, stored whole
    | Do(e: Event)                        // any event of the backend

  ghost predicate CanDo(s: Split, p: Step) {
    match p
    case Begin(i, _) => s.g.a > 0 && i !in s.begun && i !in s.seen
    case Look(i) => i in s.begun && i !in s.seen
    case Block(i, block) => i in s.begun && i in s.seen && |block| == s.g.a && s.g.a <= s.seen[i]
    case Do(e) => Enabled(s.g, e)
  }

  function Extent(g: State, size: nat): Region
    requires g.a > 0
  {
    Region(g.logOffset, AlignUp(size, g.a))
  }

  /** A region without bytes has no view. */
  function HandOut(views: map<Region, View>, r: Region): map<Region, View> {
    if r.size == 0 then views else views[r := seq(r.size, _ => Unknown)]
  }

  ghost function After(s: Split, p: Step): Split
    requires CanDo(s, p)
  {
    match p
    case Begin(i, size) =>
      var r := Extent(s.g, size);
      s.(g := s.g.(logOffset := EndOf(r)), begun := s.begun[i := r])
    case Look(i) => s.(seen := s.seen[i := s.g.logOffset])
    case Block(i, block) =>
      var h := SetLog(s.g, Stored(s.g.log, s.seen[i] - s.g.a, block));
      Split(h.(views := HandOut(h.views, s.begun[i])), s.begun - {i}, s.seen - {i})
    case Do(e) => s.(g := Apply(s.g, e))
  }

  ghost predicate CanRun(s: Split, ps: seq<Step>)
    decreases |ps|
  {
    ps == [] || (CanDo(s, ps[0]) && CanRun(After(s, ps[0]), ps[1..]))
  }

  ghost function Ran(s: Split, ps: seq<Step>): Split
    requires CanRun(s, ps)
    decreases |ps|
  {
    if ps == [] then s else Ran(After(s, ps[0]), ps[1..])
  }

  /** The step reserves space. */
  predicate Reserves(p: Step) { (p.Begin? && p.size > 0) || (p.Do? && p.e.Reserve?) }

  ghost predicate Quiet(ps: seq<Step>) { forall p :: p in ps ==> !Reserves(p) }

  lemma StepOffset(s: Split, p: Step)
    requires s.g.a > 0 && CanDo(s, p)
    ensures var t := After(s, p);
            && t.g.a == s.g.a && t.g.logOffset >= s.g.logOffset
            && (t.g.logOffset == s.g.logOffset <==> !Reserves(p))
            && (s.g.logOffset % s.g.a == 0 ==> t.g.logOffset % t.g.a == 0)
  {
    if p.Begin? {
      RoundedUp(p.size, s.g.logOffset, s.g.a);
    } else if p.Do? && p.e.Reserve? {
      RoundedUp(p.e.size, s.g.logOffset, s.g.a);
    }
  }

  lemma RoundedUp(size: nat, off: nat, a: nat)
    requires a > 0
    ensures AlignUp(size, a) >= size && (size == 0 ==> AlignUp(size, a) == 0) && (size > 0 ==> AlignUp(size, a) >= a)
    ensures off % a == 0 ==> (off + AlignUp(size, a)) % a == 0
  {
    AlignFacts(size, a);
    AlignOptimal(size, 0, a);
    if off % a == 0 { SumOfMultiples(off, AlignUp(size, a), a); }
    if size > 0 { MultiplesApart(0, AlignUp(size, a), a); }
  }

  /** The offset stays exactly as long as nobody reserves. */
  lemma {:induction false} RunOffset(s: Split, ps: seq<Step>)
    requires s.g.a > 0 && CanRun(s, ps)
    ensures var t := Ran(s, ps);
            && t.g.a == s.g.a && t.g.logOffset >= s.g.logOffset
            && (t.g.logOffset == s.g.logOffset <==> Quiet(ps))
            && (s.g.logOffset % s.g.a == 0 ==> t.g.logOffset % t.g.a == 0)
    decreases |ps|
  {
    if ps != [] {
      StepOffset(s, ps[0]);
      RunOffset(After(s, ps[0]), ps[1..]);
      QuietCons(ps);
    }
  }

  lemma QuietCons(ps: seq<Step>)
    requires ps != []
    ensures Quiet(ps) <==> !Reserves(ps[0]) && Quiet(ps[1..])
  {
    assert forall p :: p in ps <==> p == ps[0] || p in ps[1..];
  }

  lemma {:induction false} StillBegun(s: Split, ps: seq<Step>, i: nat)
    requires i in s.begun && CanRun(s, ps) && forall block :: Block(i, block) !in ps
    ensures var t := Ran(s, ps);
            && i in t.begun && t.begun[i] == s.begun[i]
            && (i in s.seen ==> i in t.seen && t.seen[i] == s.seen[i])
    decreases |ps|
  {
    if ps != [] {
      assert ps[0] in ps;
      StillBegun(After(s, ps[0]), ps[1..], i);
    }
  }

  /** A create of this size reserves in s, reads the offset again in `read` after the steps ps, and is
      about to store its block in t after the steps qs. */
  ghost predicate Creates(s: Split, i: nat, size: nat, ps: seq<Step>, read: Split, qs: seq<Step>, t: Split) {
    && s.g.a > 0 && s.g.logOffset % s.g.a == 0 && s.g.logOffset >= s.g.a && CanDo(s, Begin(i, size))
    && (forall b :: Block(i, b) !in ps) && (forall b :: Block(i, b) !in qs)
    && CanRun(After(s, Begin(i, size)), ps) && read == Ran(After(s, Begin(i, size)), ps)
    && CanDo(read, Look(i)) && CanRun(After(read, Look(i)), qs) && t == Ran(After(read, Look(i)), qs)
  }

  /** Where a create's end block falls: in its own extent if and only if the size asked for was positive
      and nobody reserved before the offset was read again; otherwise all of it falls outside. What
      happens after the read makes no difference. */
  lemma EndBlockAtHome(s: Split, i: nat, size: nat, ps: seq<Step>, read: Split, qs: seq<Step>, t: Split)
    requires Creates(s, i, size, ps, read, qs, t)
    ensures s.g.a > 0 && t.g.a == s.g.a && i in t.seen && i in t.begun && t.begun[i] == Extent(s.g, size)
    ensures var r, at := Extent(s.g, size), t.seen[i] - s.g.a;
            && t.seen[i] == read.g.logOffset && 0 <= at
            && (r.off <= at && at + s.g.a <= EndOf(r) <==> size > 0 && Quiet(ps))
            && (at + s.g.a <= r.off || EndOf(r) <= at <==> !(size > 0 && Quiet(ps)))
  {
    var s1, r := After(s, Begin(i, size)), Extent(s.g, size);
    RoundedUp(size, s.g.logOffset, s.g.a);
    StepOffset(s, Begin(i, size));
    RunOffset(s1, ps);
    StillBegun(s1, ps, i);
    RunOffset(After(read, Look(i)), qs);
    StillBegun(After(read, Look(i)), qs, i);
    if read.g.logOffset > EndOf(r) { MultiplesApart(EndOf(r), read.g.logOffset, s.g.a); }
  }

  /** Storing a block changes no byte of the file outside the block. */
  lemma BlockBytes(s: Split, i: nat, block: seq<byte>)
    requires s.g.a > 0 && CanDo(s, Block(i, block))
    ensures var at, log' := s.seen[i] - s.g.a, After(s, Block(i, block)).g.log;
            && |log'| >= |s.g.log| && |log'| >= at + s.g.a && log'[at..at + s.g.a] == block
            && forall p :: 0 <= p < |s.g.log| && !(at <= p < at + s.g.a) ==> log'[p] == s.g.log[p]
  {}

  /** So a create that asked for space and was not overtaken before its second look leaves every byte
      outside its own extent alone, whatever else happened in between; and one that was, or that asked
      for nothing, stores its block over whatever region lies there. */
  lemma EndBlockTouches(s: Split, i: nat, size: nat, ps: seq<Step>, read: Split, qs: seq<Step>, t: Split,
                        block: seq<byte>, q: Region)
    requires Creates(s, i, size, ps, read, qs, t) && |block| == s.g.a
    ensures CanDo(t, Block(i, block)) && s.g.a > 0
    ensures Extent(s.g, size).size > 0 ==> Extent(s.g, size) in After(t, Block(i, block)).g.views
    ensures var r, at, log' := Extent(s.g, size), read.g.logOffset - s.g.a, After(t, Block(i, block)).g.log;
            && 0 <= at
            && (size > 0 && Quiet(ps) ==>
                  forall p :: 0 <= p < |t.g.log| && !(r.off <= p < EndOf(r)) ==> p < |log'| && log'[p] == t.g.log[p])
            && (!(size > 0 && Quiet(ps)) && q.off <= at && at + s.g.a <= EndOf(q) ==>
                  (at + s.g.a <= r.off || EndOf(r) <= at) && |log'| >= at + s.g.a && log'[at..at + s.g.a] == block)
  {
    EndBlockAtHome(s, i, size, ps, read, qs, t);
    BlockBytes(t, i, block);
  }

  /** On a log that holds nothing but the superblock, a create of no bytes that is not overtaken stores
      its block over the end of the superblock. */
  lemma EmptyCreateHitsSuperblock(s: Split, i: nat, ps: seq<Step>, read: Split, qs: seq<Step>, t: Split, block: seq<byte>)
    requires Creates(s, i, 0, ps, read, qs, t) && |block| == s.g.a && s.g.logOffset == SUPERBLOCK && Quiet(ps)
    ensures CanDo(t, Block(i, block)) && 0 < s.g.a <= SUPERBLOCK <= |After(t, Block(i, block)).g.log|
    ensures After(t, Block(i, block)).g.log[SUPERBLOCK - s.g.a..SUPERBLOCK] == block
  {
    EndBlockTouches(s, i, 0, ps, read, qs, t, block, Region(0, SUPERBLOCK));
    RoundedUp(0, s.g.logOffset, s.g.a);
    StepOffset(s, Begin(i, 0));
    RunOffset(After(s, Begin(i, 0)), ps);
  }

  function Asked(p: Step): nat
    requires Reserves(p)
  {
    if p.Begin? then p.size else p.e.size
  }

  /** Step k of the run reserves the extent q. */
  ghost predicate ReservedAt(s: Split, ps: seq<Step>, k: nat, q: Region) {
    k < |ps| && Reserves(ps[k]) && CanRun(s, ps[..k])
    && var g := Ran(s, ps[..k]).g; g.a > 0 && q == Extent(g, Asked(ps[k]))
  }

  /** An overtaken create does hit another one: the extent reserved last. */
  lemma {:induction false} OvertakenBy(s: Split, ps: seq<Step>) returns (k: nat, q: Region)
    requires s.g.a > 0 && CanRun(s, ps) && !Quiet(ps)
    ensures ReservedAt(s, ps, k, q) && s.g.logOffset <= q.off
    ensures var t := Ran(s, ps).g; q.off <= t.logOffset - s.g.a && t.logOffset == EndOf(q)
    decreases |ps|
  {
    var s1 := After(s, ps[0]);
    StepOffset(s, ps[0]);
    QuietCons(ps);
    if Quiet(ps[1..]) {
      k, q := 0, Extent(s.g, Asked(ps[0]));
      RunOffset(s1, ps[1..]);
      RoundedUp(Asked(ps[0]), s.g.logOffset, s.g.a);
      assert ps[..0] == [];
    } else {
      var j;
      j, q := OvertakenBy(s1, ps[1..]);
      k := j + 1;
      Later(s, ps, j, q);
    }
  }

  lemma Later(s: Split, ps: seq<Step>, j: nat, q: Region)
    requires ps != [] && CanDo(s, ps[0]) && ReservedAt(After(s, ps[0]), ps[1..], j, q)
    ensures ReservedAt(s, ps, j + 1, q)
  {
    assert ps[..j + 1][0] == ps[0] && ps[..j + 1][1..] == ps[1..][..j];
  }

  // ---------- a run that loses data ----------

  /** Reserving space for a create that is not ended yet keeps the backend's invariant. */
  lemma BeginKeepsInv(g: State, size: nat)
    requires Inv(g) && size > 0
    ensures Inv(g.(logOffset := EndOf(Extent(g, size))))
  {
    hide Sound, Shows;
    RoundedUp(size, g.logOffset, g.a);
  }

  lemma SecondCreate(g: State, j: nat, data: seq<byte>, tail: seq<byte>, left: seq<byte>)
    requires Inv(g) && data != [] && j !in g.pending && |tail| == g.a
    requires |data| <= |left| == AlignUp(|data|, g.a) && left[..|data|] == data
    ensures Enabled(g, Reserve(j, |data|)) && Enabled(Apply(g, Reserve(j, |data|)), EndBlock(j, tail, true))
    ensures var h, r := Apply(Apply(g, Reserve(j, |data|)), EndBlock(j, tail, true)), Extent(g, |data|);
            && r !in g.views && Enabled(h, WriteRaw(r, 0, data, left, |left|))
            && var k := Apply(h, WriteRaw(r, 0, data, left, |left|));
               LogHas(k.log, r, data) && r in k.views && k.a == g.a && k.logOffset == EndOf(r)
  {
    var g1, r := Apply(g, Reserve(j, |data|)), Extent(g, |data|);
    StepInv(g, Reserve(j, |data|));
    ReserveRoom(g1, j);
    CreatedRegion(g, j, |data|, tail);
    hide Inv;
    EagerCreateWritePersist(g, j, tail, data, left);
  }

  lemma ReserveRoom(g: State, j: nat)
    requires Inv(g) && j in g.pending && EndOf(g.pending[j]) == g.logOffset
    ensures |g.log| + g.a <= g.logOffset
  {
    PendingLast(g, j);
  }

  lemma FiveSteps(s: Split, p0: Step, s1: Split, p1: Step, s2: Split, p2: Step, s3: Split, p3: Step, s4: Split,
                  p4: Step, t: Split)
    requires CanDo(s, p0) && s1 == After(s, p0) && CanDo(s1, p1) && s2 == After(s1, p1)
    requires CanDo(s2, p2) && s3 == After(s2, p2) && CanDo(s3, p3) && s4 == After(s3, p3)
    requires CanDo(s4, p4) && t == After(s4, p4)
    ensures CanRun(s, [p0, p1, p2, p3, p4]) && Ran(s, [p0, p1, p2, p3, p4]) == t
  {
    hide CanDo, After;
    RanCons(s4, p4, [], t);
    RanCons(s3, p3, [p4], t);
    RanCons(s2, p2, [p3, p4], t);
    RanCons(s1, p1, [p2, p3, p4], t);
    RanCons(s, p0, [p1, p2, p3, p4], t);
    assert [p4] + [] == [p4] && [p3] + [p4] == [p3, p4] && [p2] + [p3, p4] == [p2, p3, p4];
    assert [p1] + [p2, p3, p4] == [p1, p2, p3, p4] && [p0] + [p1, p2, p3, p4] == [p0, p1, p2, p3, p4];
  }

  lemma RanCons(s: Split, p: Step, ps: seq<Step>, t: Split)
    requires CanDo(s, p) && CanRun(After(s, p), ps) && Ran(After(s, p), ps) == t
    ensures CanRun(s, [p] + ps) && Ran(s, [p] + ps) == t
  {
    assert ([p] + ps)[1..] == ps;
  }

  /** A block that falls on the last block of a region can destroy what was written there. */
  lemma BlockDestroys(t: Split, i: nat, r: Region, data: seq<byte>) returns (block: seq<byte>)
    requires t.g.a > 0 && i in t.begun && i in t.seen && r.size == AlignUp(|data|, t.g.a) && data != []
    requires EndOf(r) == t.seen[i] >= t.g.a
    ensures CanDo(t, Block(i, block)) && !LogHas(After(t, Block(i, block)).g.log, r, data)
  {
    var a := t.g.a;
    AlignFacts(|data|, a);
    RoundedUp(|data|, 0, a);
    var k := r.size - a;
    var other: byte := if data[k] == 0 then 1 else 0;
    block := seq(a, _ => other);
    BlockBytes(t, i, block);
    var log' := After(t, Block(i, block)).g.log;
    assert log'[r.off + k..r.off + k + a][0] == log'[r.off + k];
    LogHasAt(log', r, data, k);
  }

  lemma LogHasAt(log: seq<byte>, r: Region, data: seq<byte>, k: nat)
    requires k < |data| && r.off + k < |log| && log[r.off + k] != data[k]
    ensures !LogHas(log, r, data)
  {
    if r.off + |data| <= |log| { assert log[r.off..r.off + |data|][k] == log[r.off + k]; }
  }

  /** In every state: a create that another one overtakes between its reservation and its second look
      can destroy the last block of a region that was handed out and completely written. */
  lemma OvertakenCreateLosesData(g: State, size: nat, j: nat, data: seq<byte>)
    returns (ps: seq<Step>, t: Split, block: seq<byte>)
    requires Inv(g) && size > 0 && data != [] && j !in g.pending
    ensures g.a > 0 && CanRun(Split(g, map[], map[]), ps) && t == Ran(Split(g, map[], map[]), ps)
    ensures var r := Region(EndOf(Extent(g, size)), AlignUp(|data|, g.a));
            && r in t.g.views && LogHas(t.g.log, r, data)
            && CanDo(t, Block(0, block)) && !LogHas(After(t, Block(0, block)).g.log, r, data)
  {
    hide Inv, LogHas;
    Positive(g);
    var s, mine := Split(g, map[], map[]), Extent(g, size);
    BeginKeepsInv(g, size);
    var g1 := g.(logOffset := EndOf(mine));
    var r, tail := Extent(g1, |data|), seq(g.a, _ => 0);
    AlignFacts(|data|, g.a);
    var left := data + seq(r.size - |data|, _ => 0);
    assert left[..|data|] == data;
    SecondCreate(g1, j, data, tail, left);
    var s1 := Split(g1, map[0 := mine], map[]);
    var g2 := Apply(g1, Reserve(j, |data|));
    var g3 := Apply(g2, EndBlock(j, tail, true));
    var g4 := Apply(g3, WriteRaw(r, 0, data, left, |left|));
    hide Apply, Enabled;
    assert s1 == After(s, Begin(0, size));
    t := Split(g4, map[0 := mine], map[0 := g4.logOffset]);
    assert t == After(s1.(g := g4), Look(0));
    FiveSteps(s, Begin(0, size), s1, Do(Reserve(j, |data|)), s1.(g := g2), Do(EndBlock(j, tail, true)), s1.(g := g3),
              Do(WriteRaw(r, 0, data, left, |left|)), s1.(g := g4), Look(0), t);
    ps := [Begin(0, size), Do(Reserve(j, |data|)), Do(EndBlock(j, tail, true)), Do(WriteRaw(r, 0, data, left, |left|)),
           Look(0)];
    RoundedUp(|data|, 0, g.a);
    block := BlockDestroys(t, 0, r, data);
  }
}
