/**
 What a request owns, what its SQE tells the kernel, and what the kernel can
 reach from that by following memory.
 */
module Footprint {
  import opened Bytes
  import opened MsgRegion
  import opened Transfer
  import opened Message
  import opened Paths

  /** Part of one owned buffer that the SQE names directly. */
  datatype Span = Span(buf: Buf, addr: nat, len: nat, write: bool)

  /**
   An owned request, reduced to its memory. `Flat` requests put every address and
   length in the SQE; a path request puts its paths' addresses there and leaves their
   lengths to memory; message requests put only the header's address there. A request
   served from a buffer group owns nothing and names only the group.
   */
  datatype Req =
    | Flat(spans: seq<Span>)
    | ByPath(paths: seq<OwnedPath>, spans: seq<Span>)
    | Provided(group: nat)
    | Msg(bufs: seq<Buf>, region: Region, recv: bool, named: bool)
  {
    function Owns(): set<Buf> {
      match this
      case Flat(spans) => set s | s in spans :: s.buf
      case Provided(_) => {}
      case ByPath(paths, spans) => (set p | p in paths :: p.store) + (set s | s in spans :: s.buf)
      case Msg(bufs, region, _, _) => (set b | b in bufs) + {region.store}
    }

    /** The buffers safe code may still write while the request is only prepared. */
    function Payload(): set<Buf> {
      match this
      case Flat(_) => Owns()
      case ByPath(_, _) => {}
      case Provided(_) => {}
      case Msg(bufs, _, _, _) => set b | b in bufs
    }

    /** The pointers staged in memory lead back to owned buffers. */
    predicate Image(m: Mem)
      requires Msg?
    {
      Faithful(ViewAt(m, region.hdr))
    }

    predicate Faithful(v: View)
      requires Msg?
    {
      && v.name == (if named then region.name else 0)
      && v.iov == region.vecs && |v.vecs| == region.count
      && |bufs| == region.count
      && forall i :: 0 <= i < |bufs| ==> VecWithin(v.vecs[i], bufs[i])
    }

    predicate Ok(m: Mem) {
      match this
      case Flat(spans) =>
        forall i :: 0 <= i < |spans| ==> SpanWithin(spans[i])
      case ByPath(paths, spans) =>
        && (forall i :: 0 <= i < |paths| ==> paths[i].Valid(m))
        && (forall i :: 0 <= i < |spans| ==> SpanWithin(spans[i]))
        && (forall i, j :: 0 <= i < |paths| && 0 <= j < |spans| ==> paths[i].store != spans[j].buf)
      case Provided(_) => true
      case Msg(bufs, region, _, _) =>
        && region.Valid() && region.count == |bufs| && region.store !in bufs
        && Image(m)
    }

    /** Bytes that decide where the kernel goes: pointers, their count, and paths to their NUL. */
    predicate IsPointer(x: nat) {
      match this
      case Flat(_) => false
      case Provided(_) => false
      case ByPath(paths, _) => exists i :: 0 <= i < |paths| && Spells(paths[i], x)
      case Msg(_, region, _, _) =>
        || region.hdr <= x < region.hdr + 8
        || region.hdr + 16 <= x < region.hdr + 32
        || region.vecs <= x < region.name
    }

    /** The buffers that hold those bytes. */
    function Pointers(): set<Buf> {
      match this
      case Flat(_) => {}
      case Provided(_) => {}
      case ByPath(paths, _) => set p | p in paths :: p.store
      case Msg(_, region, _, _) => {region.store}
    }
  }

  /** Address `x` is a byte of the path or its NUL. */
  predicate Spells(p: OwnedPath, x: nat) { p.store.addr <= x <= p.store.addr + p.len }

  /** What a header and its array say, as far as the kernel follows them. */
  datatype View = View(name: nat, iov: nat, vecs: seq<IoVec>)

  function ViewAt(m: Mem, hdr: nat): View {
    View(Word(m, hdr), Word(m, hdr + 16), VecsAt(m, Word(m, hdr + 16), Word(m, hdr + 24)))
  }

  predicate VecWithin(v: IoVec, b: Buf) { v.base == b.addr && v.len <= b.len }

  predicate SpanWithin(s: Span) { s.buf.addr <= s.addr && s.addr + s.len <= s.buf.addr + s.buf.len }

  predicate In(b: Buf, x: nat) { b.addr <= x < b.addr + b.len }

  /** The addresses an SQE carries. */
  datatype Range = Range(addr: nat, len: nat, write: bool)

  datatype Target = Ranges(rs: seq<Range>) | Scans(starts: seq<nat>, rs: seq<Range>) | Group(group: nat) | Header(hdr: nat, recv: bool)

  function RangesOf(spans: seq<Span>): seq<Range> {
    seq(|spans|, i requires 0 <= i < |spans| => Range(spans[i].addr, spans[i].len, spans[i].write))
  }

  function TargetOf(r: Req): Target {
    match r
    case Flat(spans) => Ranges(RangesOf(spans))
    case ByPath(paths, spans) =>
      Scans(seq(|paths|, i requires 0 <= i < |paths| => paths[i].store.addr), RangesOf(spans))
    case Provided(group) => Group(group)
    case Msg(_, region, recv, _) => Header(region.hdr, recv)
  }

  predicate InVec(v: IoVec, x: nat) { v.base <= x < v.base + v.len }

  predicate InRanges(rs: seq<Range>, x: nat) {
    exists i :: 0 <= i < |rs| && rs[i].addr <= x < rs[i].addr + rs[i].len
  }

  /** Scanning from `start` for a NUL, as memory now stands, reads address `x`. */
  predicate Scanned(m: Mem, start: nat, x: nat) {
    start <= |m| && start <= x <= ScanFrom(m, start)
  }

  /** The kernel, holding only this target, may read address `x`. A group's memory is its pool's. */
  predicate Touches(m: Mem, t: Target, x: nat) {
    match t
    case Ranges(rs) => InRanges(rs, x)
    case Scans(starts, rs) =>
      (exists i :: 0 <= i < |starts| && Scanned(m, starts[i], x)) || InRanges(rs, x)
    case Group(_) => false
    case Header(hdr, _) => hdr <= x < hdr + 56 || Follows(ViewAt(m, hdr), x)
  }

  /** Address `x` is in the array, in a described range, or in the reserved address slot. */
  predicate Follows(v: View, x: nat) {
    || v.iov <= x < v.iov + 16 * |v.vecs|
    || Lands(v, x)
  }

  predicate Lands(v: View, x: nat) {
    || (exists i :: 0 <= i < |v.vecs| && InVec(v.vecs[i], x))
    || (v.name != 0 && v.name <= x < v.name + 16)
  }

  predicate InWritable(rs: seq<Range>, x: nat) {
    exists i :: 0 <= i < |rs| && rs[i].write && rs[i].addr <= x < rs[i].addr + rs[i].len
  }

  /** ... or write it: payload, and for a receive the header's three output fields. */
  predicate MayWrite(m: Mem, t: Target, x: nat) {
    match t
    case Ranges(rs) => InWritable(rs, x)
    case Scans(_, rs) => InWritable(rs, x)
    case Group(_) => false
    case Header(hdr, recv) =>
      recv && (hdr + 8 <= x < hdr + 12 || hdr + 40 <= x < hdr + 52 || Lands(ViewAt(m, hdr), x))
  }

  /** Everything a faithful view leads to lies in a buffer the request owns. */
  lemma FollowsOwned(r: Req, v: View, x: nat)
    requires r.Msg? && r.region.Valid() && r.Faithful(v)
    requires r.region.hdr <= x < r.region.hdr + 56 || Follows(v, x)
    ensures exists b :: b in r.Owns() && In(b, x)
  {
    if In(r.region.store, x) {
      assert r.region.store in r.Owns();
    } else {
      var i :| 0 <= i < |v.vecs| && InVec(v.vecs[i], x);
      assert VecWithin(v.vecs[i], r.bufs[i]) && r.bufs[i] in r.bufs;
      assert r.bufs[i] in r.Owns() && In(r.bufs[i], x);
    }
  }

  lemma RangesOwned(spans: seq<Span>, x: nat) returns (i: nat)
    requires forall i :: 0 <= i < |spans| ==> SpanWithin(spans[i])
    requires InRanges(RangesOf(spans), x)
    ensures i < |spans| && In(spans[i].buf, x)
  {
    var rs := RangesOf(spans);
    i :| 0 <= i < |rs| && rs[i].addr <= x < rs[i].addr + rs[i].len;
    assert SpanWithin(spans[i]);
  }

  lemma ScansOwned(m: Mem, r: Req, x: nat)
    requires r.ByPath? && r.Ok(m) && Touches(m, TargetOf(r), x)
    ensures exists b :: b in r.Owns() && In(b, x)
  {
    var Scans(starts, rs) := TargetOf(r);
    if InRanges(rs, x) {
      var i := RangesOwned(r.spans, x);
      assert r.spans[i] in r.spans && r.spans[i].buf in r.Owns();
    } else {
      var i :| 0 <= i < |starts| && Scanned(m, starts[i], x);
      assert r.paths[i].Valid(m);
      ScanStaysInside(m, r.paths[i]);
      assert r.paths[i] in r.paths && r.paths[i].store in r.Owns();
      assert In(r.paths[i].store, x);
    }
  }

  /** Everything reachable from the SQE lies in a buffer the request owns. */
  lemma TouchesOwned(m: Mem, r: Req, x: nat)
    requires r.Ok(m) && Touches(m, TargetOf(r), x)
    ensures exists b :: b in r.Owns() && In(b, x)
  {
    match r
    case Flat(spans) =>
      var i := RangesOwned(spans, x);
      assert spans[i] in spans && spans[i].buf in r.Owns();
    case ByPath(_, _) =>
      ScansOwned(m, r, x);
    case Msg(_, region, _, _) =>
      FollowsOwned(r, ViewAt(m, region.hdr), x);
  }

  lemma WriteTouches(m: Mem, t: Target, x: nat)
    requires MayWrite(m, t, x)
    ensures Touches(m, t, x)
  {
  }

  lemma LandsSparesPointers(r: Req, v: View, x: nat)
    requires r.Msg? && r.region.Valid() && r.Faithful(v) && Lands(v, x)
    requires forall b :: b in r.bufs ==> Apart(b, r.region.store)
    ensures !r.IsPointer(x)
  {
    if exists i :: 0 <= i < |v.vecs| && InVec(v.vecs[i], x) {
      var i :| 0 <= i < |v.vecs| && InVec(v.vecs[i], x);
      assert VecWithin(v.vecs[i], r.bufs[i]) && r.bufs[i] in r.bufs;
    }
  }

  lemma SpanSparesPaths(r: Req, m: Mem, x: nat)
    requires r.ByPath? && r.Ok(m) && InWritable(RangesOf(r.spans), x)
    requires forall b, c :: b in r.Owns() && c in r.Owns() && b != c ==> Apart(b, c)
    ensures !r.IsPointer(x)
  {
    var i := RangesOwned(r.spans, x);
    assert r.spans[i] in r.spans && r.spans[i].buf in r.Owns();
    forall j | 0 <= j < |r.paths|
      ensures !Spells(r.paths[j], x)
    {
      assert r.paths[j] in r.paths && r.paths[j].store in r.Owns();
      assert r.paths[j].Valid(m) && Apart(r.paths[j].store, r.spans[i].buf);
    }
  }

  /** The kernel's writes never change where it goes next. */
  lemma WriteSparesPointers(m: Mem, r: Req, x: nat)
    requires r.Ok(m) && MayWrite(m, TargetOf(r), x)
    requires forall b, c :: b in r.Owns() && c in r.Owns() && b != c ==> Apart(b, c)
    ensures !r.IsPointer(x)
  {
    match r
    case Flat(_) =>
    case Provided(_) =>
    case ByPath(_, _) => SpanSparesPaths(r, m, x);
    case Msg(bufs, region, _, _) =>
      var v := ViewAt(m, region.hdr);
      if Lands(v, x) {
        assert region.store in r.Owns();
        forall b | b in bufs
          ensures Apart(b, region.store)
        {
          assert b in r.Owns();
        }
        LandsSparesPointers(r, v, x);
      }
  }

  lemma PointersOwned(r: Req)
    ensures r.Pointers() <= r.Owns()
  {
  }

  /** The bytes a request depends on are in its own staging storage. */
  lemma PointersInside(m: Mem, r: Req, x: nat)
    requires r.Ok(m) && r.IsPointer(x)
    ensures exists b :: b in r.Pointers() && In(b, x)
  {
    match r
    case ByPath(paths, _) =>
      var i :| 0 <= i < |paths| && Spells(paths[i], x);
      assert paths[i].Valid(m) && paths[i] in paths;
      assert paths[i].store in r.Pointers() && In(paths[i].store, x);
    case Msg(_, region, _, _) =>
      assert region.store in r.Pointers() && In(region.store, x);
  }

  lemma PathFrame(m: Mem, m': Mem, p: OwnedPath)
    requires p.Valid(m) && |m'| == |m| && forall x: nat :: x < |m| && Spells(p, x) ==> m'[x] == m[x]
    ensures p.Valid(m')
  {
  }

  /** A request only depends on its own pointer bytes. */
  lemma OkFrame(m: Mem, m': Mem, r: Req)
    requires r.Ok(m) && |m'| == |m|
    requires r.Msg? ==> Inside(m, r.region.store)
    requires forall x: nat :: x < |m| && r.IsPointer(x) ==> m'[x] == m[x]
    ensures r.Ok(m')
  {
    match r
    case Flat(_) =>
    case Provided(_) =>
    case ByPath(paths, _) =>
      forall i | 0 <= i < |paths|
        ensures paths[i].Valid(m')
      {
        assert forall x: nat :: Spells(paths[i], x) ==> r.IsPointer(x);
        PathFrame(m, m', paths[i]);
      }
    case Msg(_, region, _, _) =>
      LoadSame(m, m', region.hdr, 8);
      LoadSame(m, m', region.hdr + 16, 8);
      LoadSame(m, m', region.hdr + 24, 8);
      VecsSame(m, m', region.vecs, region.count);
  }

  /** A good image, read as a header. */
  lemma ImageHeader(m: Mem, r: Req)
    requires r.Msg? && r.Image(m)
    ensures var h := HdrAt(m, r.region.hdr);
            && h.name == r.region.Header(r.named).name
            && h.iov == r.region.vecs && h.iovlen == r.region.count
  {
  }

  /** Whatever the region shows after building or re-lengthing is a good image. */
  lemma ShowsImage(m: Mem, r: Req, lens: seq<nat>)
    requires r.Msg? && r.region.Valid() && r.region.count == |r.bufs| == |lens|
    requires r.region.store !in r.bufs
    requires HdrAt(m, r.region.hdr).name == r.region.Header(r.named).name
    requires HdrAt(m, r.region.hdr).iov == r.region.vecs
    requires HdrAt(m, r.region.hdr).iovlen == r.region.count
    requires VecsAt(m, r.region.vecs, r.region.count) == Clamped(r.bufs, lens)
    ensures r.Ok(m)
  {
  }
}
