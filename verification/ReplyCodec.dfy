/** The fixed-size reply: `Response`, whose two stream operators take different branches per C++ type. */
module ReplyCodec {
  import opened Bytes

  const RESPONSE_SIZE := 2404   // sizeof(CUresult) + 300 * sizeof(uint64_t)
  const AREA := 4               // the return area and the scalar slot both start after the CUresult

  /** The branch a C++ type selects. */
  datatype Wire =
    | Handle              // a CUDA handle by value: CUcontext, CUmodule, CUstream, CUlibrary, CUevent, CUfunction
    | Text                // char*
    | Opaque              // void*, const void*, const char*
    | Table               // const void**: reading hands out a pointer into the reply itself
    | Ptr(width: nat)     // any other pointer, by the size of what it points to
    | Val(width: nat)     // anything else

  /** An element the host writes, with the bytes behind it: the value, or what the pointer points to. */
  datatype Item = Item(wire: Wire, data: seq<byte>)

  predicate WellTyped(item: Item) {
    match item.wire
    case Text => NUL !in item.data && |item.data| + 1 < TWO_TO_THE_64
    case Ptr(width) => |item.data| == width
    case Val(width) => |item.data| == width
    case Table => |item.data| == 8
    case _ => true
  }

  /** The bytes an element leaves in the reply; a by-value handle is stepped over and not written. */
  function Image(item: Item): seq<byte> {
    match item.wire
    case Handle => []
    case Opaque => []
    case Text => LE(8, |item.data| + 1) + item.data + [NUL]
    case _ => item.data
  }

  function Width(item: Item): nat {
    if item.wire == Handle then 8 else |Image(item)|
  }

  /** How far behind the start element number `n` goes; for `n == |items|`, how much the whole list takes. */
  function Place(items: seq<Item>, n: nat): nat
    requires n <= |items|
  {
    if n == 0 then 0 else Place(items, n - 1) + Width(items[n - 1])
  }

  function TotalWidth(items: seq<Item>): nat {
    Place(items, |items|)
  }

  lemma {:induction false} PlaceMonotone(items: seq<Item>, i: nat, n: nat)
    requires i < n <= |items|
    ensures Place(items, i) + Width(items[i]) <= Place(items, n)
  {
    if i < n - 1 { PlaceMonotone(items, i, n - 1); }
  }

  /** The reply after writing the first `n` elements from position `pos`. */
  function PutUpTo(buf: seq<byte>, pos: nat, items: seq<Item>, n: nat): (r: seq<byte>)
    requires n <= |items| && pos + Place(items, n) <= |buf|
    ensures |r| == |buf|
    ensures forall k :: 0 <= k < |buf| && !(pos <= k < pos + Place(items, n)) ==> r[k] == buf[k]
  {
    if n == 0 then buf
    else Splice(PutUpTo(buf, pos, items, n - 1), pos + Place(items, n - 1), Image(items[n - 1]))
  }

  lemma NothingPut(buf: seq<byte>, pos: nat, items: seq<Item>)
    requires pos <= |buf|
    ensures Place(items, 0) == 0 && PutUpTo(buf, pos, items, 0) == buf
  {
  }

  lemma PutNext(buf: seq<byte>, pos: nat, items: seq<Item>, n: nat)
    requires n < |items| && pos + Place(items, n + 1) <= |buf|
    ensures Place(items, n + 1) == Place(items, n) + Width(items[n]) && |Image(items[n])| <= Width(items[n])
    ensures PutUpTo(buf, pos, items, n + 1)
         == Splice(PutUpTo(buf, pos, items, n), pos + Place(items, n), Image(items[n]))
  {
  }

  function PutItems(buf: seq<byte>, pos: nat, items: seq<Item>): (r: seq<byte>)
    requires pos + TotalWidth(items) <= |buf|
    ensures |r| == |buf|
  {
    PutUpTo(buf, pos, items, |items|)
  }

  lemma SameRange(a: seq<byte>, b: seq<byte>, lo: nat, hi: nat)
    requires lo <= hi <= |a| == |b| && forall k :: lo <= k < hi ==> a[k] == b[k]
    ensures a[lo..hi] == b[lo..hi]
  {
  }

  lemma ImageFits(item: Item)
    ensures |Image(item)| <= Width(item)
  {
  }

  /** Element `i` stays in its place, whatever is written after it. */
  lemma {:induction false} ElementStays(buf: seq<byte>, pos: nat, items: seq<Item>, i: nat, n: nat)
    requires i < n <= |items| && pos + Place(items, n) <= |buf|
    ensures var at := pos + Place(items, i);
            && at + |Image(items[i])| <= |buf|
            && PutUpTo(buf, pos, items, n)[at..at + |Image(items[i])|] == Image(items[i])
  {
    hide Image, Width;
    ImageFits(items[i]);
    if i < n - 1 {
      var at := pos + Place(items, i);
      ElementStays(buf, pos, items, i, n - 1);
      PlaceMonotone(items, i, n - 1);
      SameRange(PutUpTo(buf, pos, items, n), PutUpTo(buf, pos, items, n - 1), at, at + |Image(items[i])|);
    }
  }

  lemma PutOne(buf: seq<byte>, pos: nat, item: Item)
    requires pos + Width(item) <= |buf|
    ensures TotalWidth([item]) == Width(item)
    ensures PutItems(buf, pos, [item]) == Splice(buf, pos, Image(item))
  {
    assert Place([item], 1) == Width(item);
    assert PutUpTo(buf, pos, [item], 0) == buf;
  }

  /** What reading an element does to the caller's argument. */
  datatype Delivery = Skipped | Copied(bytes: seq<byte>) | PointsAt(position: nat)
  datatype Reading = Reading(delivery: Delivery, next: nat)

  /** Reading at a type stays inside the reply. */
  predicate Readable(buf: seq<byte>, pos: nat, wire: Wire) {
    match wire
    case Text => pos + 8 <= |buf| && pos + 8 + ReadU64(buf, pos) <= |buf|
    case Ptr(width) => pos + width <= |buf|
    case _ => true
  }

  /** Reading outside the reply is undefined in the source; here it goes nowhere. */
  function GetItem(buf: seq<byte>, pos: nat, wire: Wire): Reading {
    if !Readable(buf, pos, wire) then Reading(Skipped, pos)
    else
      match wire
      case Handle => Reading(Skipped, pos + 8)
      case Text =>
        var len := ReadU64(buf, pos);
        Reading(Copied(buf[pos + 8..pos + 8 + len]), pos + 8 + len)
      case Opaque => Reading(Skipped, pos)
      case Table => Reading(PointsAt(pos), pos + 8)
      case Ptr(width) => Reading(Copied(buf[pos..pos + width]), pos + width)
      case Val(width) => Reading(Skipped, pos + width)
  }

  /** The cursor before element `n` is read. */
  function At(buf: seq<byte>, pos: nat, wires: seq<Wire>, n: nat): nat
    requires n <= |wires|
  {
    if n == 0 then pos else GetItem(buf, At(buf, pos, wires, n - 1), wires[n - 1]).next
  }

  /** What the reader does with element `i`. */
  function ReadingAt(buf: seq<byte>, pos: nat, wires: seq<Wire>, i: nat): Reading
    requires i < |wires|
  {
    GetItem(buf, At(buf, pos, wires, i), wires[i])
  }

  ghost predicate AllReadable(buf: seq<byte>, pos: nat, wires: seq<Wire>) {
    forall i :: 0 <= i < |wires| ==> Readable(buf, At(buf, pos, wires, i), wires[i])
  }

  // ---------- compatibility ----------

  /** The host may write a value where the guest reads through a pointer; otherwise both sides use one type. */
  predicate Compatible(written: Item, read: Wire) {
    (written.wire == read && read != Table) || (written.wire.Val? && read == Ptr(written.wire.width))
  }

  /** Reading it moves the cursor and touches no memory. */
  predicate SkipOnly(read: Wire) {
    read.Handle? || read.Opaque? || read.Val?
  }

  /** Element by element the two lists are compatible, as far as the writer goes. */
  ghost predicate Matching(written: seq<Item>, read: seq<Wire>) {
    && |written| <= |read|
    && forall i :: 0 <= i < |written| ==> WellTyped(written[i]) && Compatible(written[i], read[i])
  }

  ghost predicate CompatibleLists(written: seq<Item>, read: seq<Wire>) {
    Matching(written, read) && forall i :: |written| <= i < |read| ==> SkipOnly(read[i])
  }

  function Expected(written: Item, read: Wire): Delivery {
    if read.Text? then Copied(written.data + [NUL])
    else if read.Ptr? then Copied(written.data)
    else Skipped
  }

  lemma OneInStep(buf: seq<byte>, pos: nat, item: Item, read: Wire)
    requires WellTyped(item) && Compatible(item, read)
    requires pos + |Image(item)| <= |buf| && buf[pos..pos + |Image(item)|] == Image(item)
    ensures Readable(buf, pos, read)
    ensures GetItem(buf, pos, read) == Reading(Expected(item, read), pos + Width(item))
  {
    hide LE, FromLE, Pow256, Place, PutUpTo;
    if read.Text? {
      var len := |item.data| + 1;
      U64RoundTrip(len);
      assert buf[pos..pos + 8] == Image(item)[..8] == LE(8, len);
      assert buf[pos + 8..pos + 8 + len] == Image(item)[8..] == item.data + [NUL];
    }
  }

  /** The reader is where the writer was: it has read `n` elements and stands where the writer stood after them. */
  lemma {:induction false} InStep(buf: seq<byte>, pos: nat, written: seq<Item>, read: seq<Wire>, n: nat)
    requires Matching(written, read) && pos + TotalWidth(written) <= |buf| && n <= |written|
    ensures At(PutItems(buf, pos, written), pos, read, n) == pos + Place(written, n)
  {
    hide LE, FromLE, ReadU64, PutItems, PutUpTo, GetItem, Readable, Image, WellTyped, Compatible;
    if n > 0 {
      InStep(buf, pos, written, read, n - 1);
      ElementRead(buf, pos, written, read, n - 1);
    }
  }

  lemma ElementRead(buf: seq<byte>, pos: nat, written: seq<Item>, read: seq<Wire>, i: nat)
    requires Matching(written, read) && pos + TotalWidth(written) <= |buf| && i < |written|
    ensures var reply, at := PutItems(buf, pos, written), pos + Place(written, i);
            && Readable(reply, at, read[i])
            && GetItem(reply, at, read[i]) == Reading(Expected(written[i], read[i]), pos + Place(written, i + 1))
  {
    hide LE, FromLE, ReadU64, PutUpTo, GetItem, Readable, Image, WellTyped, Compatible;
    ElementStays(buf, pos, written, i, |written|);
    OneInStep(PutItems(buf, pos, written), pos + Place(written, i), written[i], read[i]);
  }

  lemma SkipsReadNothing(buf: seq<byte>, pos: nat, wire: Wire)
    requires SkipOnly(wire)
    ensures Readable(buf, pos, wire) && GetItem(buf, pos, wire).delivery == Skipped
  {
  }

  /**
   * Writer and reader stay in step: after each written element both cursors are at the same place, every
   * out-pointer has received what was written for it, and past the last written element the reader only skips.
   */
  lemma Lockstep(buf: seq<byte>, pos: nat, written: seq<Item>, read: seq<Wire>)
    requires CompatibleLists(written, read) && pos + TotalWidth(written) <= |buf|
    ensures var reply := PutItems(buf, pos, written);
            && AllReadable(reply, pos, read)
            && (forall i :: 0 <= i < |written| ==>
                  ReadingAt(reply, pos, read, i) == Reading(Expected(written[i], read[i]), pos + Place(written, i + 1)))
            && (forall i :: |written| <= i < |read| ==> ReadingAt(reply, pos, read, i).delivery == Skipped)
  {
    hide LE, FromLE, ReadU64, PutItems, PutUpTo, GetItem, Readable, Image, At, Place, WellTyped, Compatible;
    var reply := PutItems(buf, pos, written);
    forall i | 0 <= i < |read|
      ensures Readable(reply, At(reply, pos, read, i), read[i])
      ensures i < |written| ==>
                ReadingAt(reply, pos, read, i) == Reading(Expected(written[i], read[i]), pos + Place(written, i + 1))
      ensures i >= |written| ==> ReadingAt(reply, pos, read, i).delivery == Skipped
    {
      if i < |written| {
        InStep(buf, pos, written, read, i);
        ElementRead(buf, pos, written, read, i);
      } else {
        SkipsReadNothing(reply, At(reply, pos, read, i), read[i]);
      }
    }
  }

  // ---------- reading past the writer ----------

  lemma SameBytesSameReading(a: seq<byte>, b: seq<byte>, pos: nat, wire: Wire)
    requires |a| == |b| && (forall k :: pos <= k < |a| ==> a[k] == b[k]) && Readable(a, pos, wire)
    ensures Readable(b, pos, wire) && GetItem(a, pos, wire) == GetItem(b, pos, wire)
  {
    if wire.Text? {
      SameRange(a, b, pos, pos + 8);
      SameRange(a, b, pos + 8, pos + 8 + ReadU64(a, pos));
    } else if wire.Ptr? {
      SameRange(a, b, pos, pos + wire.width);
    }
  }

  /**
   * Why only skipped elements may follow: the first other one is read where the writer stopped, and delivers what
   * the buffer held there before this reply was written.
   */
  lemma OverrunDeliversStale(buf: seq<byte>, pos: nat, written: seq<Item>, read: seq<Wire>)
    requires Matching(written, read) && |written| < |read| && pos + TotalWidth(written) <= |buf|
    requires AllReadable(PutItems(buf, pos, written), pos, read) && !SkipOnly(read[|written|])
    ensures var n, stop := |written|, pos + TotalWidth(written);
            && Readable(buf, stop, read[n])
            && ReadingAt(PutItems(buf, pos, written), pos, read, n) == GetItem(buf, stop, read[n])
            && GetItem(buf, stop, read[n]).delivery != Skipped
  {
    hide LE, FromLE, ReadU64, Pow256, Image, PutUpTo, At, Place, WellTyped, Compatible;
    var n, reply := |written|, PutItems(buf, pos, written);
    InStep(buf, pos, written, read, n);
    SameBytesSameReading(reply, buf, pos + Place(written, n), read[n]);
  }

  /** The scalar slot is the start of the return area: one value written there is read by an 8-byte pointer. */
  lemma ScalarReadByPointer(buf: seq<byte>, scalar: u64, skipped: seq<Wire>)
    requires |buf| == RESPONSE_SIZE && forall i :: 0 <= i < |skipped| ==> SkipOnly(skipped[i])
    ensures var reply, read := Splice(buf, AREA, LE(8, scalar)), [Ptr(8)] + skipped;
            && AllReadable(reply, AREA, read)
            && ReadingAt(reply, AREA, read, 0).delivery == Copied(LE(8, scalar))
            && ReadU64(reply, AREA) == scalar
  {
    var item := Item(Val(8), LE(8, scalar));
    PutOne(buf, AREA, item);
    Lockstep(buf, AREA, [item], [Ptr(8)] + skipped);
    U64RoundTrip(scalar);
  }

  /**
   * Outside the relation: a `const void*` writes nothing, so a table pointer read in its place leads to the bytes
   * of earlier replies.
   */
  lemma ExportTableNotInStep(buf: seq<byte>, item: Item)
    requires item.wire == Opaque && AREA + 8 <= |buf|
    ensures !Compatible(item, Table) && TotalWidth([item]) == 0
    ensures GetItem(PutItems(buf, AREA, [item]), AREA, Table) == Reading(PointsAt(AREA), AREA + 8)
    ensures PutItems(buf, AREA, [item])[AREA..AREA + 8] == buf[AREA..AREA + 8]
  {
    PutOne(buf, AREA, item);
    assert Splice(buf, AREA, [])[AREA..AREA + 8] == buf[AREA..AREA + 8];
  }

  // ---------- the reply object, used by both sides ----------

  class Response {
    const mdata: array<byte>
    var cursor: nat     // return_buffer_, counted from mdata_

    ghost predicate Valid() {
      mdata.Length == RESPONSE_SIZE
    }

    constructor ()
      ensures Valid() && fresh(mdata) && cursor == AREA && mdata.Length == 4 + 300 * 8
    {
      mdata := new byte[RESPONSE_SIZE](_ => 0);
      cursor := AREA;
    }

    method SetResult(code: u32)
      requires Valid()
      modifies mdata
      ensures mdata[..] == Splice(old(mdata[..]), 0, LE(4, code))
      ensures mdata[..4] == LE(4, code) && mdata[4..] == old(mdata[4..])
    {
      CopyInto(mdata, 0, LE(4, code));
    }

    method SetScalar(scalar: u64)
      requires Valid()
      modifies mdata
      ensures mdata[..] == Splice(old(mdata[..]), AREA, LE(8, scalar))
      ensures mdata[4..12] == LE(8, scalar) && mdata[..4] == old(mdata[..4]) && mdata[12..] == old(mdata[12..])
    {
      CopyInto(mdata, AREA, LE(8, scalar));
    }

    method Result() returns (code: u32)
      requires Valid()
      ensures code == FromLE(mdata[..4])
      ensures LE(4, code) == mdata[..4]
    {
      Pow256Of8();
      code := FromLE(mdata[..4]);
      LEOfFromLE(mdata[..4]);
    }

    method Scalar() returns (scalar: u64)
      requires Valid()
      ensures scalar == ReadU64(mdata[..], AREA)
      ensures LE(8, scalar) == mdata[4..12]
    {
      Pow256Of8();
      assert mdata[AREA..AREA + 8] == mdata[..][AREA..AREA + 8];
      scalar := FromLE(mdata[AREA..AREA + 8]);
      LEOfFromLE(mdata[AREA..AREA + 8]);
    }

    /** The length with the terminator, then the characters and the terminator. */
    method PutText(chars: seq<byte>)
      requires Valid() && cursor + 9 + |chars| <= RESPONSE_SIZE
      modifies `cursor, mdata
      ensures mdata[..] == Splice(old(mdata[..]), old(cursor), LE(8, |chars| + 1) + (chars + [NUL]))
      ensures cursor == old(cursor) + 9 + |chars|
    {
      SpliceTwice(mdata[..], cursor, LE(8, |chars| + 1), chars + [NUL]);
      CopyInto(mdata, cursor, LE(8, |chars| + 1));
      CopyInto(mdata, cursor + 8, chars + [NUL]);
      cursor := cursor + 9 + |chars|;
    }

    method Put(item: Item)
      requires Valid() && cursor + Width(item) <= RESPONSE_SIZE
      modifies `cursor, mdata
      ensures mdata[..] == Splice(old(mdata[..]), old(cursor), Image(item)) && cursor == old(cursor) + Width(item)
      ensures item.wire.Handle? ==> mdata[..] == old(mdata[..]) && cursor == old(cursor) + 8
      ensures item.wire.Opaque? ==> mdata[..] == old(mdata[..]) && cursor == old(cursor)
    {
      match item.wire
      case Handle =>
        assert mdata[..] == Splice(mdata[..], cursor, []);
        cursor := cursor + 8;
      case Text =>
        assert Image(item) == LE(8, |item.data| + 1) + (item.data + [NUL]);
        PutText(item.data);
      case Opaque =>
        assert mdata[..] == Splice(mdata[..], cursor, []);
      case _ =>
        CopyInto(mdata, cursor, item.data);
        cursor := cursor + |item.data|;
    }

    method PutAll(items: seq<Item>)
      requires Valid() && cursor + TotalWidth(items) <= RESPONSE_SIZE
      modifies `cursor, mdata
      ensures mdata[..] == PutItems(old(mdata[..]), old(cursor), items)
      ensures cursor == old(cursor) + TotalWidth(items)
    {
      ghost var before, start := mdata[..], cursor;
      NothingPut(before, start, items);
      hide PutUpTo, Place, Width, Image, Splice;
      for n := 0 to |items|
        invariant cursor == start + Place(items, n) <= RESPONSE_SIZE
        invariant mdata[..] == PutUpTo(before, start, items, n)
      {
        PlaceMonotone(items, n, |items|);
        if n + 1 < |items| { PlaceMonotone(items, n + 1, |items|); }
        PutNext(before, start, items, n);
        Put(items[n]);
      }
    }

    method Get(wire: Wire) returns (d: Delivery)
      requires Valid() && Readable(mdata[..], cursor, wire)
      modifies `cursor
      ensures Reading(d, cursor) == GetItem(mdata[..], old(cursor), wire)
      ensures wire.Handle? ==> d == Skipped && cursor == old(cursor) + 8
      ensures wire.Opaque? ==> d == Skipped && cursor == old(cursor)
      ensures wire.Val? ==> d == Skipped && cursor == old(cursor) + wire.width
      ensures wire.Ptr? ==>
                old(cursor) + wire.width <= RESPONSE_SIZE && d == Copied(mdata[old(cursor)..old(cursor) + wire.width])
    {
      match wire
      case Handle =>
        d, cursor := Skipped, cursor + 8;
      case Text =>
        Pow256Of8();
        assert mdata[cursor..cursor + 8] == mdata[..][cursor..cursor + 8];
        var len := FromLE(mdata[cursor..cursor + 8]);
        d := Copied(mdata[cursor + 8..cursor + 8 + len]);
        assert d.bytes == mdata[..][cursor + 8..cursor + 8 + len];
        cursor := cursor + 8 + len;
      case Opaque =>
        d := Skipped;
      case Table =>
        d, cursor := PointsAt(cursor), cursor + 8;
      case Ptr(width) =>
        d := Copied(mdata[cursor..cursor + width]);
        assert d.bytes == mdata[..][cursor..cursor + width];
        cursor := cursor + width;
      case Val(width) =>
        d, cursor := Skipped, cursor + width;
    }

    method GetAll(wires: seq<Wire>) returns (ds: seq<Delivery>)
      requires Valid() && AllReadable(mdata[..], cursor, wires)
      modifies `cursor
      ensures |ds| == |wires|
      ensures forall i :: 0 <= i < |wires| ==> ds[i] == ReadingAt(mdata[..], old(cursor), wires, i).delivery
    {
      hide LE, FromLE, ReadU64, Pow256, GetItem, Readable;
      ds := [];
      for n := 0 to |wires|
        invariant |ds| == n && cursor == At(mdata[..], old(cursor), wires, n)
        invariant forall i :: 0 <= i < n ==> ds[i] == ReadingAt(mdata[..], old(cursor), wires, i).delivery
      {
        var d := Get(wires[n]);
        ds := ds + [d];
      }
    }

    method Reset()
      modifies `cursor
      ensures cursor == AREA == 4
    {
      cursor := AREA;
    }

    /** What `receive` does to the guest's copy. */
    method Load(data: seq<byte>)
      requires Valid() && |data| == RESPONSE_SIZE
      modifies mdata
      ensures mdata[..] == data
    {
      CopyInto(mdata, 0, data);
      assert mdata[..] == mdata[..][0..0 + |data|] == data;
    }
  }
}
