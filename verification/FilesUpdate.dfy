/**
 Updating a ring's file table from an array the kernel reads after submission.
 */
module FilesUpdate {
  import opened Arithmetic
  import opened Bytes
  import opened Slots
  import MsgRegion

  datatype TableEntry = Install(fd: nat) | Clear
  {
    /** `TableEntry::raw`; a descriptor is cut to its low 32 bits. */
    function Raw(): int {
      match this
      case Install(fd) => AsI32(fd % U32)
      case Clear => -1
    }

    /** The low 31 bits hold the descriptor. */
    predicate Fits() { Install? ==> fd < U32 / 2 }
  }

  /** What the kernel takes an array element to ask for. */
  datatype Asked = Entry(entry: TableEntry) | Skip | Bad

  /** -1 clears, `IORING_REGISTER_FILES_SKIP` (-2) leaves the slot alone, other negatives are no descriptors. */
  function Decode(raw: int): Asked {
    if raw == -1 then Entry(Clear)
    else if raw == -2 then Skip
    else if raw >= 0 then Entry(Install(raw))
    else Bad
  }

  /** The kernel is asked for what the entry says exactly when its descriptor fits an `i32`. */
  lemma RawRoundTripIff(e: TableEntry)
    ensures Decode(e.Raw()) == Entry(e) <==> e.Fits()
  {
  }

  /** A descriptor of all ones clears the slot it was meant to fill. */
  lemma AllOnesClears()
    ensures Decode(Install(U32 - 1).Raw()) == Entry(Clear)
  {
  }

  // ----- staging the array -----

  datatype AtError = Empty | StoreTooSmall(needed: nat, got: nat) | StoreMisaligned(needed: nat)

  datatype AtResult = Prepared(addr: nat) | Refused(error: AtError)

  /** `PreparedFilesUpdate::at`, up to the write. */
  function At(store: MsgRegion.Buf, n: nat): AtResult {
    if n == 0 then Refused(Empty)
    else if store.len < 4 * n then Refused(StoreTooSmall(4 * n, store.len))
    else if store.addr % 4 != 0 then Refused(StoreMisaligned(4))
    else Prepared(store.addr)
  }

  /** Accepted exactly for a non-empty array that fits and is aligned; then it lies in the storage. */
  lemma AtStages(store: MsgRegion.Buf, n: nat)
    ensures At(store, n).Prepared? <==> n > 0 && 4 * n <= store.len && store.addr % 4 == 0
    ensures At(store, n).Prepared? ==>
      forall i: nat :: i < n ==>
        var a := At(store, n).addr + 4 * i;
        a % 4 == 0 && store.addr <= a && a + 4 <= store.addr + store.len
  {
  }

  /** A refusal says what is missing, and names the length that would have done. */
  lemma AtRefusalSays(store: MsgRegion.Buf, n: nat)
    requires At(store, n).Refused?
    ensures match At(store, n).error
            case Empty => n == 0
            case StoreTooSmall(needed, got) => got == store.len < needed == 4 * n
            case StoreMisaligned(needed) => needed == 4 && store.addr % 4 != 0 && store.len >= 4 * n > 0
  {
  }

  /** `slots`: the count as the SQE carries it. */
  function SlotCount(entries: seq<TableEntry>): nat { |entries| % U32 }

  function EntryWritten(m: Mem, a: nat, e: TableEntry): (r: Mem)
    requires a + 4 <= |m|
    ensures |r| == |m|
  {
    Store(m, a, Le(AsU32(e.Raw()), 4))
  }

  method WriteEntry(mem: array<Byte>, a: nat, e: TableEntry)
    requires a + 4 <= mem.Length
    modifies mem
    ensures mem[..] == EntryWritten(old(mem[..]), a, e)
  {
    MsgRegion.StoreBytes(mem, a, Le(AsU32(e.Raw()), 4));
  }

  /** Memory after the first `n` entries are written from `addr` on. */
  function Published(m: Mem, addr: nat, entries: seq<TableEntry>, n: nat): (r: Mem)
    requires n <= |entries| && addr + 4 * n <= |m|
    ensures |r| == |m|
  {
    if n == 0 then m
    else EntryWritten(Published(m, addr, entries, n - 1), addr + 4 * (n - 1), entries[n - 1])
  }

  /** `publish` */
  method Publish(mem: array<Byte>, addr: nat, entries: seq<TableEntry>)
    requires addr + 4 * |entries| <= mem.Length
    modifies mem
    ensures mem[..] == Published(old(mem[..]), addr, entries, |entries|)
  {
    ghost var m0 := mem[..];
    var i := 0;
    while i < |entries|
      invariant 0 <= i <= |entries|
      invariant mem[..] == Published(m0, addr, entries, i)
    {
      PublishedStep(m0, addr, entries, i);
      WriteEntry(mem, addr + 4 * i, entries[i]);
      i := i + 1;
    }
  }

  lemma PublishedStep(m: Mem, addr: nat, entries: seq<TableEntry>, i: nat)
    requires i < |entries| && addr + 4 * |entries| <= |m|
    ensures Published(m, addr, entries, i + 1) == EntryWritten(Published(m, addr, entries, i), addr + 4 * i, entries[i])
  {
  }

  /** The `i32` at an address. */
  function ElementAt(m: Mem, a: nat): int { AsI32(Half(m, a) % U32) }

  /** `published`: read the array back from memory. */
  method ReadBack(mem: array<Byte>, addr: nat, n: nat) returns (seen: seq<int>)
    requires addr + 4 * n <= mem.Length
    ensures |seen| == n && forall i :: 0 <= i < n ==> seen[i] == ElementAt(mem[..], addr + 4 * i)
  {
    seen := [];
    for i := 0 to n
      invariant |seen| == i
      invariant forall k :: 0 <= k < i ==> seen[k] == ElementAt(mem[..], addr + 4 * k)
    {
      var half := mem[addr + 4 * i..addr + 4 * i + 4];
      assert half == Load(mem[..], addr + 4 * i, 4);
      seen := seen + [AsI32(Unle(half) % U32)];
    }
  }

  /** One written entry reads back, and elements before it are as they were. */
  lemma EntryReads(m: Mem, a: nat, e: TableEntry)
    requires a + 4 <= |m|
    ensures var m' := EntryWritten(m, a, e);
            && ElementAt(m', a) == e.Raw()
            && (forall b: nat :: b + 4 <= a ==> ElementAt(m', b) == ElementAt(m, b))
            && (forall x :: 0 <= x < |m| && !(a <= x < a + 4) ==> m'[x] == m[x])
  {
    var bytes := Le(AsU32(e.Raw()), 4);
    LoadStored(m, a, bytes, 0, 4);
    MsgRegion.PowerFacts();
    UnleLe(AsU32(e.Raw()), 4);
    forall b: nat | b + 4 <= a
      ensures ElementAt(Store(m, a, bytes), b) == ElementAt(m, b)
    {
      LoadApart(m, a, bytes, b, 4);
    }
  }

  lemma {:induction false} PublishedAt(m: Mem, addr: nat, entries: seq<TableEntry>, n: nat, i: nat)
    requires i < n <= |entries| && addr + 4 * n <= |m|
    ensures ElementAt(Published(m, addr, entries, n), addr + 4 * i) == entries[i].Raw()
  {
    EntryReads(Published(m, addr, entries, n - 1), addr + 4 * (n - 1), entries[n - 1]);
    if i < n - 1 {
      PublishedAt(m, addr, entries, n - 1, i);
    }
  }

  lemma {:induction false} PublishedOutside(m: Mem, addr: nat, entries: seq<TableEntry>, n: nat, x: nat)
    requires n <= |entries| && addr + 4 * n <= |m| && x < |m| && !(addr <= x < addr + 4 * n)
    ensures Published(m, addr, entries, n)[x] == m[x]
  {
    if n > 0 {
      PublishedOutside(m, addr, entries, n - 1, x);
    }
  }

  /** Every element reads back as the entry that was written, and nothing else changed. */
  lemma PublishedReads(m: Mem, addr: nat, entries: seq<TableEntry>, n: nat)
    requires n <= |entries| && addr + 4 * n <= |m|
    ensures var m' := Published(m, addr, entries, n);
            && (forall i :: 0 <= i < n ==> ElementAt(m', addr + 4 * i) == entries[i].Raw())
            && (forall x :: 0 <= x < |m| && !(addr <= x < addr + 4 * n) ==> m'[x] == m[x])
  {
    forall i | 0 <= i < n
      ensures ElementAt(Published(m, addr, entries, n), addr + 4 * i) == entries[i].Raw()
    {
      PublishedAt(m, addr, entries, n, i);
    }
    forall x | 0 <= x < |m| && !(addr <= x < addr + 4 * n)
      ensures Published(m, addr, entries, n)[x] == m[x]
    {
      PublishedOutside(m, addr, entries, n, x);
    }
  }

  // ----- the kernel -----

  datatype Slot = Vacant | File(fd: nat)

  /** What the slot becomes when the element is done. */
  function Filled(was: Slot, a: Asked): Slot {
    match a
    case Entry(Install(fd)) => File(fd)
    case Entry(Clear) => Vacant
    case Skip => was
    case Bad => was
  }

  /** The kernel can do what this element asks: any descriptor it names is open. */
  predicate Takes(open: set<nat>, a: Asked) { !a.Bad? && (a.Entry? && a.entry.Install? ==> a.entry.fd in open) }

  /** Work through the array from element `done` on, stopping at the first it cannot do. */
  function Installing(t: seq<Slot>, m: Mem, addr: nat, nr: nat, offset: nat, open: set<nat>, done: nat): (r: (seq<Slot>, nat))
    requires done <= nr && offset + nr <= |t|
    ensures |r.0| == |t| && done <= r.1 <= nr
    decreases nr - done
  {
    if done == nr then (t, done)
    else
      var a := Decode(ElementAt(m, addr + 4 * done));
      if Takes(open, a) then
        Installing(t[offset + done := Filled(t[offset + done], a)], m, addr, nr, offset, open, done + 1)
      else (t, done)
  }

  const EBADF: int := 9
  const EINVAL: int := 22
  const ENXIO: int := 6

  /** The kernel's answer: the new table and the CQE result. */
  function KernelUpdates(t: seq<Slot>, m: Mem, addr: nat, nr: nat, offset: nat, open: set<nat>): (seq<Slot>, int) {
    if |t| == 0 then (t, -ENXIO)
    else if nr == 0 || offset + nr > |t| then (t, -EINVAL)
    else
      var (t', done) := Installing(t, m, addr, nr, offset, open, 0);
      (t', if done == 0 then -EBADF else done)
  }

  /** Elements `from` to `k` were done to their slots, and no other slot changed. */
  ghost predicate Did(t: seq<Slot>, t': seq<Slot>, m: Mem, addr: nat, offset: nat, open: set<nat>, from: nat, k: nat) {
    && |t'| == |t| && offset + k <= |t|
    && (forall i :: from <= i < k ==> DidOne(t[offset + i], t'[offset + i], open, Decode(ElementAt(m, addr + 4 * i))))
    && (forall x :: 0 <= x < |t| && !(offset + from <= x < offset + k) ==> t'[x] == t[x])
  }

  predicate DidOne(was: Slot, now: Slot, open: set<nat>, a: Asked) { Takes(open, a) && now == Filled(was, a) }

  lemma DidFirst(t: seq<Slot>, t1: seq<Slot>, t': seq<Slot>, m: Mem, addr: nat, offset: nat, open: set<nat>, from: nat, k: nat)
    requires from < k && Did(t1, t', m, addr, offset, open, from + 1, k)
    requires |t| == |t1| && t1 == t[offset + from := Filled(t[offset + from], Decode(ElementAt(m, addr + 4 * from)))]
    requires Takes(open, Decode(ElementAt(m, addr + 4 * from)))
    ensures Did(t, t', m, addr, offset, open, from, k)
  {
    forall i | from <= i < k
      ensures DidOne(t[offset + i], t'[offset + i], open, Decode(ElementAt(m, addr + 4 * i)))
    {
      if i > from {
        assert t1[offset + i] == t[offset + i];
      }
    }
  }

  /** The loop did the elements before the one it stopped at, and only those. */
  lemma {:induction false} InstallDoes(t: seq<Slot>, m: Mem, addr: nat, nr: nat, offset: nat, open: set<nat>, done: nat)
    requires done <= nr && offset + nr <= |t|
    ensures var r := Installing(t, m, addr, nr, offset, open, done);
            && Did(t, r.0, m, addr, offset, open, done, r.1)
            && (r.1 < nr ==> !Takes(open, Decode(ElementAt(m, addr + 4 * r.1))))
    decreases nr - done
  {
    if done < nr {
      var a := Decode(ElementAt(m, addr + 4 * done));
      if Takes(open, a) {
        var t1 := t[offset + done := Filled(t[offset + done], a)];
        var r := Installing(t1, m, addr, nr, offset, open, done + 1);
        InstallDoes(t1, m, addr, nr, offset, open, done + 1);
        DidFirst(t, t1, r.0, m, addr, offset, open, done, r.1);
      }
    }
  }

  // ----- what the completion says -----

  datatype Update = All(count: nat) | Partial(installed: nat, requested: nat) | Failed(errno: nat)
  {
    /** `installed` */
    function Installed(): nat {
      match this
      case All(count) => count
      case Partial(installed, _) => installed
      case Failed(_) => 0
    }

    /** `is_complete` */
    predicate IsComplete() { All? }
  }

  /** `Update::from_raw` */
  function FromRaw(result: int, requested: nat): Update {
    if result < 0 then Failed(-result)
    else if result >= requested then All(requested)
    else Partial(result, requested)
  }

  /** The request lies in the table. */
  predicate InRange(t: seq<Slot>, offset: nat, n: nat) { 0 < n && offset + n <= |t| }

  /**
   `installed` counts the elements before the first that could not be done; exactly
   that many slots from the offset are as was asked, no other slot changed, and
   `is_complete` says exactly that every element took.
   */
  ghost predicate Reports(t: seq<Slot>, t': seq<Slot>, u: Update, asked: seq<Asked>, offset: nat, open: set<nat>) {
    var n, k := |asked|, u.Installed();
    && |t'| == |t| && k <= n
    && (forall x :: 0 <= x < |t| && !(offset <= x < offset + k) ==> t'[x] == t[x])
    && (if InRange(t, offset, n) then
          && (forall i :: 0 <= i < k ==> Takes(open, asked[i]) && t'[offset + i] == Filled(t[offset + i], asked[i]))
          && (k < n ==> !Takes(open, asked[k]))
          && (u.IsComplete() <==> forall i :: 0 <= i < n ==> Takes(open, asked[i]))
        else k == 0 && !u.IsComplete())
  }

  /** The array in memory asks for this. */
  predicate Shows(m: Mem, addr: nat, asked: seq<Asked>) {
    forall i :: 0 <= i < |asked| ==> Decode(ElementAt(m, addr + 4 * i)) == asked[i]
  }

  /** `installed` and `is_complete`, from the kernel's count alone. */
  lemma CountReports(k: nat, n: nat)
    requires k <= n && n > 0
    ensures var u := FromRaw(if k == 0 then -EBADF else k, n);
            u.Installed() == k && (u.IsComplete() <==> k == n)
  {
  }

  lemma InstallReports(t: seq<Slot>, m: Mem, addr: nat, asked: seq<Asked>, offset: nat, open: set<nat>)
    requires Shows(m, addr, asked) && InRange(t, offset, |asked|)
    ensures var r := Installing(t, m, addr, |asked|, offset, open, 0);
            Reports(t, r.0, FromRaw(if r.1 == 0 then -EBADF else r.1, |asked|), asked, offset, open)
  {
    var r := Installing(t, m, addr, |asked|, offset, open, 0);
    InstallDoes(t, m, addr, |asked|, offset, open, 0);
    CountReports(r.1, |asked|);
    forall i | 0 <= i < r.1
      ensures Takes(open, asked[i]) && r.0[offset + i] == Filled(t[offset + i], asked[i])
    {
      assert DidOne(t[offset + i], r.0[offset + i], open, Decode(ElementAt(m, addr + 4 * i)));
    }
  }

  lemma RefusedReports(t: seq<Slot>, errno: int, asked: seq<Asked>, offset: nat, open: set<nat>)
    requires errno > 0 && !InRange(t, offset, |asked|)
    ensures Reports(t, t, FromRaw(-errno, |asked|), asked, offset, open)
  {
  }

  lemma KernelReports(t: seq<Slot>, m: Mem, addr: nat, asked: seq<Asked>, offset: nat, open: set<nat>)
    requires Shows(m, addr, asked)
    ensures var r := KernelUpdates(t, m, addr, |asked|, offset, open);
            Reports(t, r.0, FromRaw(r.1, |asked|), asked, offset, open)
  {
    if InRange(t, offset, |asked|) {
      InstallReports(t, m, addr, asked, offset, open);
    } else {
      RefusedReports(t, if |t| == 0 then ENXIO else EINVAL, asked, offset, open);
    }
  }

  /** A negative result is that errno; any other is a count, and complete exactly if it reaches what was asked for. */
  lemma UpdateSays(result: int, requested: nat)
    ensures var u := FromRaw(result, requested);
            && (u.Failed? <==> result < 0) && (u.Failed? ==> u.errno + result == 0)
            && (u.All? <==> result >= 0 && result >= requested) && (u.All? ==> u.count == requested)
            && (u.Partial? ==> u.installed == result < u.requested == requested)
  {
  }

  // ----- the whole round -----

  /** What the staged entries ask for, as the kernel reads them: cut to 32 bits, and as many as it is told of. */
  function AskedBy(entries: seq<TableEntry>): (asked: seq<Asked>)
    ensures |asked| == SlotCount(entries)
  {
    seq(SlotCount(entries), i requires 0 <= i < SlotCount(entries) => Decode(entries[i].Raw()))
  }

  /** What the caller meant. */
  function MeantBy(entries: seq<TableEntry>): (asked: seq<Asked>)
    ensures |asked| == |entries|
  {
    seq(|entries|, i requires 0 <= i < |entries| => Entry(entries[i]))
  }

  lemma PublishedAsks(m: Mem, addr: nat, entries: seq<TableEntry>)
    requires addr + 4 * |entries| <= |m|
    ensures Shows(Published(m, addr, entries, |entries|), addr, AskedBy(entries))
  {
    PublishedReads(m, addr, entries, |entries|);
  }

  /**
   Stage any entries `at` accepts, let the kernel work through the staged bytes, and
   read its answer: it reports exactly what happened to the table.
   */
  lemma UpdateReportsTable(t: seq<Slot>, m: Mem, store: MsgRegion.Buf, entries: seq<TableEntry>, offset: nat, open: set<nat>)
    requires MsgRegion.Inside(m, store) && At(store, |entries|).Prepared?
    ensures var addr := At(store, |entries|).addr;
            var r := KernelUpdates(t, Published(m, addr, entries, |entries|), addr, SlotCount(entries), offset, open);
            Reports(t, r.0, FromRaw(r.1, SlotCount(entries)), AskedBy(entries), offset, open)
  {
    var addr := At(store, |entries|).addr;
    PublishedAsks(m, addr, entries);
    KernelReports(t, Published(m, addr, entries, |entries|), addr, AskedBy(entries), offset, open);
  }

  /** The kernel is asked for what was meant exactly when every descriptor and the count fit. */
  lemma AskedAsMeantIff(entries: seq<TableEntry>)
    ensures AskedBy(entries) == MeantBy(entries)
       <==> |entries| < U32 && forall i :: 0 <= i < |entries| ==> entries[i].Fits()
  {
    if |entries| < U32 {
      forall i | 0 <= i < |entries|
        ensures AskedBy(entries)[i] == MeantBy(entries)[i] <==> entries[i].Fits()
      {
        RawRoundTripIff(entries[i]);
      }
    }
  }
}
