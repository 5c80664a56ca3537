/** The request message: `Serializer` on the guest, `Deserializer` on the host. */
module RequestCodec {
  import opened Bytes

  const BUFFER_SIZE := 10000

  /** One serialised argument, by the `operator<<` overload that takes it. */
  datatype Arg =
    | Raw(bytes: seq<byte>)     // any fixed-width value, by its object representation
    | CStr(chars: seq<byte>)    // `const char*` or `char*`, without the terminator
    | Words(words: seq<u64>)    // `std::vector<uint64_t>`
    | Tuple(items: Args)
  datatype Args = Nil | Cons(head: Arg, tail: Args)

  /** One decoded argument type, by the `operator>>` overload that takes it. */
  datatype Shape =
    | RawOf(width: nat)
    | CStrOf
    | WordsOf
    | TupleOf(items: Shapes)
  datatype Shapes = NoShapes | Shapes(head: Shape, tail: Shapes)

  /** What decoding hands out: values are copied, strings and words are pointers into the receive buffer. */
  datatype View =
    | RawView(bytes: seq<byte>)
    | CStrView(at: nat)
    | SlotsView(slots: seq<nat>)
    | TupleView(items: Views)
  datatype Views = NoViews | Views(head: View, tail: Views)

  datatype Decoded<T> = Got(value: T, next: nat) | OutOfBuffer

  // ---------- encoding ----------

  /** What the C types promise: a string has no NUL before its end, and a length fits in `size_t`. */
  predicate Sendable(a: Arg) {
    match a
    case Raw(_) => true
    case CStr(chars) => NUL !in chars && |chars| < TWO_TO_THE_64
    case Words(words) => |words| < TWO_TO_THE_64
    case Tuple(items) => AllSendable(items)
  }

  predicate AllSendable(args: Args) {
    args.Cons? ==> Sendable(args.head) && AllSendable(args.tail)
  }

  function WordBytes(words: seq<u64>): (s: seq<byte>)
    ensures |s| == 8 * |words|
  {
    if words == [] then [] else LE(8, words[0]) + WordBytes(words[1..])
  }

  function Encode(a: Arg): seq<byte> {
    match a
    case Raw(bytes) => bytes
    case CStr(chars) => LE(8, |chars|) + chars + [NUL]
    case Words(words) => LE(8, |words|) + WordBytes(words)
    case Tuple(items) => EncodeAll(items)
  }

  function EncodeAll(args: Args): seq<byte> {
    match args
    case Nil => []
    case Cons(head, tail) => Encode(head) + EncodeAll(tail)
  }

  function ShapeOf(a: Arg): Shape {
    match a
    case Raw(bytes) => RawOf(|bytes|)
    case CStr(_) => CStrOf
    case Words(_) => WordsOf
    case Tuple(items) => TupleOf(ShapesOf(items))
  }

  function ShapesOf(args: Args): Shapes {
    match args
    case Nil => NoShapes
    case Cons(head, tail) => Shapes(ShapeOf(head), ShapesOf(tail))
  }

  lemma ConsUnfolds(head: Arg, tail: Args)
    ensures EncodeAll(Cons(head, tail)) == Encode(head) + EncodeAll(tail)
    ensures ShapesOf(Cons(head, tail)) == Shapes(ShapeOf(head), ShapesOf(tail))
    ensures AllSendable(Cons(head, tail)) <==> Sendable(head) && AllSendable(tail)
  {
  }

  // ---------- decoding ----------

  function SlotsFrom(at: nat, count: nat): (slots: seq<nat>)
    ensures |slots| == count
    ensures forall i :: 0 <= i < count ==> slots[i] == at + 8 * i
  {
    seq(count, i requires 0 <= i < count => at + 8 * i)
  }

  function Decode(shape: Shape, buf: seq<byte>, pos: nat): Decoded<View> {
    match shape
    case RawOf(width) =>
      if pos + width <= |buf| then Got(RawView(buf[pos..pos + width]), pos + width) else OutOfBuffer
    case CStrOf =>
      if pos + 8 <= |buf| then Got(CStrView(pos + 8), pos + 8 + ReadU64(buf, pos) + 1) else OutOfBuffer
    case WordsOf =>
      if pos + 8 <= |buf| then
        var count := ReadU64(buf, pos);
        Got(SlotsView(SlotsFrom(pos + 8, count)), pos + 8 + 8 * count)
      else OutOfBuffer
    case TupleOf(items) =>
      match DecodeAll(items, buf, pos)
      case Got(views, next) => Got(TupleView(views), next)
      case OutOfBuffer => OutOfBuffer
  }

  function DecodeAll(shapes: Shapes, buf: seq<byte>, pos: nat): Decoded<Views> {
    match shapes
    case NoShapes => Got(NoViews, pos)
    case Shapes(head, tail) =>
      match Decode(head, buf, pos)
      case OutOfBuffer => OutOfBuffer
      case Got(view, next) =>
        match DecodeAll(tail, buf, next)
        case OutOfBuffer => OutOfBuffer
        case Got(views, end) => Got(Views(view, views), end)
  }

  /** The C string at `at`: the bytes before the first NUL. */
  function CString(buf: seq<byte>, at: nat): (s: seq<byte>)
    ensures NUL !in s
    ensures at + |s| < |buf| ==> buf[at..at + |s|] == s && buf[at + |s|] == NUL
    decreases |buf| - at
  {
    if at >= |buf| || buf[at] == NUL then [] else [buf[at]] + CString(buf, at + 1)
  }

  function WordAt(buf: seq<byte>, slot: nat): u64 {
    if slot + 8 <= |buf| then ReadU64(buf, slot) else 0
  }

  function WordsAt(buf: seq<byte>, slots: seq<nat>): seq<u64> {
    seq(|slots|, i requires 0 <= i < |slots| => WordAt(buf, slots[i]))
  }

  /** The argument that the driver sees when it follows the decoded pointers. */
  function Follow(buf: seq<byte>, v: View): Arg {
    match v
    case RawView(bytes) => Raw(bytes)
    case CStrView(at) => CStr(CString(buf, at))
    case SlotsView(slots) => Words(WordsAt(buf, slots))
    case TupleView(items) => Tuple(FollowAll(buf, items))
  }

  function FollowAll(buf: seq<byte>, vs: Views): Args {
    match vs
    case NoViews => Nil
    case Views(head, tail) => Cons(Follow(buf, head), FollowAll(buf, tail))
  }

  // ---------- round trip ----------

  ghost predicate Holds(buf: seq<byte>, pos: nat, data: seq<byte>) {
    pos + |data| <= |buf| && buf[pos..pos + |data|] == data
  }

  lemma HoldsSplit(buf: seq<byte>, pos: nat, a: seq<byte>, b: seq<byte>)
    requires Holds(buf, pos, a + b)
    ensures Holds(buf, pos, a) && Holds(buf, pos + |a|, b)
  {
    assert buf[pos..pos + |a|] == (a + b)[..|a|];
    assert buf[pos + |a|..pos + |a| + |b|] == (a + b)[|a|..];
  }

  lemma HoldsLength(buf: seq<byte>, pos: nat, n: u64)
    requires Holds(buf, pos, LE(8, n))
    ensures ReadU64(buf, pos) == n
  {
    U64RoundTrip(n);
  }

  lemma {:induction false} CStringFound(buf: seq<byte>, at: nat, chars: seq<byte>)
    requires NUL !in chars && Holds(buf, at, chars + [NUL])
    ensures CString(buf, at) == chars
    decreases |chars|
  {
    if chars == [] {
      assert buf[at..at + 1][0] == NUL;
    } else {
      assert chars + [NUL] == [chars[0]] + (chars[1..] + [NUL]);
      HoldsSplit(buf, at, [chars[0]], chars[1..] + [NUL]);
      assert buf[at] == buf[at..at + 1][0] == chars[0];
      CStringFound(buf, at + 1, chars[1..]);
      assert chars == [chars[0]] + chars[1..];
    }
  }

  lemma {:induction false} WordsFound(buf: seq<byte>, at: nat, words: seq<u64>)
    requires Holds(buf, at, WordBytes(words))
    ensures WordsAt(buf, SlotsFrom(at, |words|)) == words
    decreases |words|
  {
    if words != [] {
      HoldsSplit(buf, at, LE(8, words[0]), WordBytes(words[1..]));
      HoldsLength(buf, at, words[0]);
      WordsFound(buf, at + 8, words[1..]);
      var slots, rest := SlotsFrom(at, |words|), SlotsFrom(at + 8, |words| - 1);
      forall i | 0 <= i < |words|
        ensures WordAt(buf, slots[i]) == words[i]
      {
        if i > 0 {
          assert slots[i] == rest[i - 1];
          assert WordAt(buf, rest[i - 1]) == WordsAt(buf, rest)[i - 1] == words[1..][i - 1];
        }
      }
    }
  }

  /** Decoding the bytes of an argument, at its own type, gives the argument back and stops at its end. */
  lemma {:induction false} DecodeUndoesEncode(a: Arg, buf: seq<byte>, pos: nat)
    requires Sendable(a) && Holds(buf, pos, Encode(a))
    ensures var d := Decode(ShapeOf(a), buf, pos);
            d.Got? && Follow(buf, d.value) == a && d.next == pos + |Encode(a)|
    decreases a
  {
    match a
    case Raw(bytes) =>
    case CStr(chars) =>
      assert Encode(a) == LE(8, |chars|) + (chars + [NUL]);
      HoldsSplit(buf, pos, LE(8, |chars|), chars + [NUL]);
      HoldsLength(buf, pos, |chars|);
      CStringFound(buf, pos + 8, chars);
    case Words(words) =>
      HoldsSplit(buf, pos, LE(8, |words|), WordBytes(words));
      HoldsLength(buf, pos, |words|);
      WordsFound(buf, pos + 8, words);
    case Tuple(items) =>
      DecodeAllUndoesEncodeAll(items, buf, pos);
  }

  lemma {:induction false} DecodeAllUndoesEncodeAll(args: Args, buf: seq<byte>, pos: nat)
    requires AllSendable(args) && Holds(buf, pos, EncodeAll(args))
    ensures var d := DecodeAll(ShapesOf(args), buf, pos);
            d.Got? && FollowAll(buf, d.value) == args && d.next == pos + |EncodeAll(args)|
    decreases args
  {
    match args
    case Nil =>
    case Cons(head, tail) =>
      HoldsSplit(buf, pos, Encode(head), EncodeAll(tail));
      DecodeUndoesEncode(head, buf, pos);
      DecodeAllUndoesEncodeAll(tail, buf, pos + |Encode(head)|);
  }

  /** The launch protocol and every hook rely on it: two argument lists of the same types never share a message. */
  lemma EncodeInjective(a: Args, b: Args)
    requires AllSendable(a) && AllSendable(b) && ShapesOf(a) == ShapesOf(b)
    requires EncodeAll(a) == EncodeAll(b)
    ensures a == b
  {
    DecodeAllUndoesEncodeAll(a, EncodeAll(a), 0);
    DecodeAllUndoesEncodeAll(b, EncodeAll(a), 0);
  }

  /** No message is a proper prefix of another of the same types, so a message needs no outer length. */
  lemma EncodePrefixFree(a: Args, b: Args, rest: seq<byte>)
    requires AllSendable(a) && AllSendable(b) && ShapesOf(a) == ShapesOf(b)
    requires EncodeAll(a) + rest == EncodeAll(b)
    ensures a == b && rest == []
  {
    var buf := EncodeAll(b);
    assert buf[..|EncodeAll(a)|] == EncodeAll(a);
    DecodeAllUndoesEncodeAll(a, buf, 0);
    DecodeAllUndoesEncodeAll(b, buf, 0);
  }

  // ---------- decoded pointers ----------

  /** A half-open range of the receive buffer. */
  datatype Range = Range(lo: nat, hi: nat)

  /** The ranges that a decoded argument points into: a string up to its terminator, each 8-byte slot. */
  function Pointees(buf: seq<byte>, v: View): seq<Range> {
    match v
    case RawView(_) => []
    case CStrView(at) => [Range(at, at + |CString(buf, at)| + 1)]
    case SlotsView(slots) => seq(|slots|, i requires 0 <= i < |slots| => Range(slots[i], slots[i] + 8))
    case TupleView(items) => AllPointees(buf, items)
  }

  function AllPointees(buf: seq<byte>, vs: Views): seq<Range> {
    match vs
    case NoViews => []
    case Views(head, tail) => Pointees(buf, head) + AllPointees(buf, tail)
  }

  /** In order, inside [lo, hi), and pairwise disjoint. */
  ghost predicate Laid(ranges: seq<Range>, lo: nat, hi: nat) {
    && (forall i :: 0 <= i < |ranges| ==> lo <= ranges[i].lo < ranges[i].hi <= hi)
    && (forall i, j :: 0 <= i < j < |ranges| ==> ranges[i].hi <= ranges[j].lo)
  }

  /** Every pointer handed out for a message stays inside that message and shares no byte with another. */
  lemma {:induction false} PointeesDisjoint(a: Arg, buf: seq<byte>, pos: nat)
    requires Sendable(a) && Holds(buf, pos, Encode(a))
    ensures var d := Decode(ShapeOf(a), buf, pos);
            d.Got? && Laid(Pointees(buf, d.value), pos, pos + |Encode(a)|)
    decreases a
  {
    hide LE, FromLE, Pow256, CString;
    DecodeUndoesEncode(a, buf, pos);
    match a
    case Raw(_) =>
    case CStr(_) =>
    case Words(words) =>
      HoldsSplit(buf, pos, LE(8, |words|), WordBytes(words));
      HoldsLength(buf, pos, |words|);
    case Tuple(items) => AllPointeesDisjoint(items, buf, pos);
  }

  /** Where the pointers of a string and of a vector lead: to all of its characters, to each of its words. */
  lemma PointeesAre(a: Arg, buf: seq<byte>, pos: nat)
    requires Sendable(a) && Holds(buf, pos, Encode(a))
    ensures a.CStr? ==>
              Pointees(buf, Decode(CStrOf, buf, pos).value) == [Range(pos + 8, pos + 8 + |a.chars| + 1)]
    ensures a.Words? ==>
              Pointees(buf, Decode(WordsOf, buf, pos).value)
              == seq(|a.words|, i requires 0 <= i < |a.words| => Range(pos + 8 + 8 * i, pos + 8 + 8 * i + 8))
  {
    hide LE, FromLE, Pow256, CString;
    DecodeUndoesEncode(a, buf, pos);
    if a.Words? {
      HoldsSplit(buf, pos, LE(8, |a.words|), WordBytes(a.words));
      HoldsLength(buf, pos, |a.words|);
    }
  }

  /** Ranges laid out one after the other. */
  lemma LaidConcat(a: seq<Range>, b: seq<Range>, lo: nat, mid: nat, hi: nat)
    requires Laid(a, lo, mid) && Laid(b, mid, hi) && lo <= mid <= hi
    ensures Laid(a + b, lo, hi)
  {
  }

  /** Decoding a list is decoding its head, then its tail from where the head ended. */
  lemma DecodeUnfolds(head: Arg, tail: Args, buf: seq<byte>, pos: nat)
    requires var d := Decode(ShapeOf(head), buf, pos);
             d.Got? && DecodeAll(ShapesOf(tail), buf, d.next).Got?
    ensures var d := Decode(ShapeOf(head), buf, pos);
            var all := DecodeAll(ShapesOf(Cons(head, tail)), buf, pos);
            && all.Got?
            && AllPointees(buf, all.value)
               == Pointees(buf, d.value) + AllPointees(buf, DecodeAll(ShapesOf(tail), buf, d.next).value)
  {
  }

  lemma {:induction false} AllPointeesDisjoint(args: Args, buf: seq<byte>, pos: nat)
    requires AllSendable(args) && Holds(buf, pos, EncodeAll(args))
    ensures var d := DecodeAll(ShapesOf(args), buf, pos);
            d.Got? && Laid(AllPointees(buf, d.value), pos, pos + |EncodeAll(args)|)
    decreases args
  {
    match args
    case Nil =>
    case Cons(head, tail) =>
      hide Decode, DecodeAll, AllPointees, Pointees, ShapeOf, ShapesOf, Laid, Encode, Holds, Follow, FollowAll,
           Sendable;
      var next := pos + |Encode(head)|;
      HoldsSplit(buf, pos, Encode(head), EncodeAll(tail));
      DecodeUndoesEncode(head, buf, pos);
      DecodeAllUndoesEncodeAll(tail, buf, next);
      PointeesDisjoint(head, buf, pos);
      AllPointeesDisjoint(tail, buf, next);
      DecodeUnfolds(head, tail, buf, pos);
      LaidConcat(Pointees(buf, Decode(ShapeOf(head), buf, pos).value),
                 AllPointees(buf, DecodeAll(ShapesOf(tail), buf, next).value), pos, next, next + |EncodeAll(tail)|);
  }

  // ---------- capacity ----------

  /** The `memcpy` calls that encoding makes, as ranges of the send buffer. */
  function Writes(a: Arg, at: nat): seq<Range> {
    match a
    case Raw(bytes) => [Range(at, at + |bytes|)]
    case CStr(chars) =>
      [Range(at, at + 8), Range(at + 8, at + 8 + |chars|), Range(at + 8 + |chars|, at + 9 + |chars|)]
    case Words(words) => [Range(at, at + 8), Range(at + 8, at + 8 + 8 * |words|)]
    case Tuple(items) => AllWrites(items, at)
  }

  function AllWrites(args: Args, at: nat): seq<Range> {
    match args
    case Nil => []
    case Cons(head, tail) => Writes(head, at) + AllWrites(tail, at + |Encode(head)|)
  }

  /** The ranges follow one another without gap or overlap, from `lo` to `hi`. */
  predicate Tile(ranges: seq<Range>, lo: nat, hi: nat) {
    if ranges == [] then lo == hi
    else ranges[0].lo == lo <= ranges[0].hi && Tile(ranges[1..], ranges[0].hi, hi)
  }

  lemma {:induction false} TileConcat(a: seq<Range>, b: seq<Range>, lo: nat, mid: nat, hi: nat)
    requires Tile(a, lo, mid) && Tile(b, mid, hi)
    ensures Tile(a + b, lo, hi)
    decreases |a|
  {
    if a == [] {
      assert a + b == b;
    } else {
      assert (a + b)[0] == a[0] && (a + b)[1..] == a[1..] + b;
      TileConcat(a[1..], b, a[0].hi, mid, hi);
    }
  }

  /** The writes of an argument cover its encoding: every byte of it once, in order, and nothing else. */
  lemma {:induction false} WritesTile(a: Arg, at: nat)
    ensures Tile(Writes(a, at), at, at + |Encode(a)|)
    decreases a
  {
    match a
    case Raw(_) =>
    case CStr(chars) =>
      var start, end := at + 8, at + 8 + |chars|;
      assert Tile([Range(end, end + 1)], end, end + 1);
      assert [Range(start, end), Range(end, end + 1)][1..] == [Range(end, end + 1)];
      assert Writes(a, at)[1..] == [Range(start, end), Range(end, end + 1)];
    case Words(words) =>
      assert Writes(a, at)[1..] == [Range(at + 8, at + 8 + 8 * |words|)];
    case Tuple(items) => AllWritesTile(items, at);
  }

  lemma {:induction false} AllWritesTile(args: Args, at: nat)
    ensures Tile(AllWrites(args, at), at, at + |EncodeAll(args)|)
    decreases args
  {
    match args
    case Nil =>
    case Cons(head, tail) =>
      WritesTile(head, at);
      AllWritesTile(tail, at + |Encode(head)|);
      TileConcat(Writes(head, at), AllWrites(tail, at + |Encode(head)|), at, at + |Encode(head)|,
                 at + |EncodeAll(args)|);
  }

  ghost predicate InBounds(ranges: seq<Range>) {
    forall i :: 0 <= i < |ranges| ==> ranges[i].hi <= BUFFER_SIZE
  }

  lemma InBoundsConcat(a: seq<Range>, b: seq<Range>)
    ensures InBounds(a + b) <==> InBounds(a) && InBounds(b)
  {
    forall i | 0 <= i < |a| ensures (a + b)[i] == a[i] {}
    forall i | 0 <= i < |b| ensures (a + b)[|a| + i] == b[i] {}
  }

  /** Nothing checks the send buffer's size: every write is in bounds exactly when the whole message fits. */
  lemma {:induction false} WritesInBoundsIffFits(a: Arg, at: nat)
    requires at <= BUFFER_SIZE
    ensures InBounds(Writes(a, at)) <==> at + |Encode(a)| <= BUFFER_SIZE
    decreases a
  {
    match a
    case Raw(_) => assert Writes(a, at)[0].hi == at + |Encode(a)|;
    case CStr(_) => assert Writes(a, at)[2].hi == at + |Encode(a)|;
    case Words(_) => assert Writes(a, at)[1].hi == at + |Encode(a)|;
    case Tuple(items) => AllWritesInBoundsIffFits(items, at);
  }

  lemma {:induction false} AllWritesInBoundsIffFits(args: Args, at: nat)
    requires at <= BUFFER_SIZE
    ensures InBounds(AllWrites(args, at)) <==> at + |EncodeAll(args)| <= BUFFER_SIZE
    decreases args
  {
    match args
    case Nil =>
    case Cons(head, tail) =>
      InBoundsConcat(Writes(head, at), AllWrites(tail, at + |Encode(head)|));
      WritesInBoundsIffFits(head, at);
      if at + |Encode(head)| <= BUFFER_SIZE {
        AllWritesInBoundsIffFits(tail, at + |Encode(head)|);
      }
  }

  // ---------- the two buffers ----------

  class Serializer {
    const mdata: array<byte>
    var mcount: nat

    ghost predicate Valid()
      reads this
    {
      mdata.Length == BUFFER_SIZE && mcount <= BUFFER_SIZE
    }

    /** The message so far. */
    function Contents(): seq<byte>
      requires Valid()
      reads this, mdata
    {
      mdata[..mcount]
    }

    constructor ()
      ensures Valid() && fresh(mdata) && mdata.Length == 10000 && Contents() == []
    {
      mdata := new byte[BUFFER_SIZE](_ => 0);
      mcount := 0;
    }

    method PutBytes(data: seq<byte>)
      requires Valid() && mcount + |data| <= BUFFER_SIZE
      modifies `mcount, mdata
      ensures Valid() && Contents() == old(Contents()) + data
    {
      CopyInto(mdata, mcount, data);
      assert mdata[..mcount] == old(mdata[..mcount]);
      mcount := mcount + |data|;
    }

    method PutCStr(chars: seq<byte>)
      requires Valid() && |chars| < TWO_TO_THE_64 && mcount + |chars| + 9 <= BUFFER_SIZE
      modifies `mcount, mdata
      ensures Valid() && Contents() == old(Contents()) + Encode(CStr(chars))
    {
      PutBytes(LE(8, |chars|));
      PutBytes(chars);
      PutBytes([NUL]);
    }

    method PutWords(words: seq<u64>)
      requires Valid() && mcount + 8 + 8 * |words| <= BUFFER_SIZE
      modifies `mcount, mdata
      ensures Valid() && Contents() == old(Contents()) + Encode(Words(words))
    {
      PutBytes(LE(8, |words|));
      PutBytes(WordBytes(words));
    }

    method Put(a: Arg)
      requires Valid() && Sendable(a) && mcount + |Encode(a)| <= BUFFER_SIZE
      modifies `mcount, mdata
      ensures Valid() && Contents() == old(Contents()) + Encode(a)
      decreases a
    {
      match a
      case Raw(bytes) => PutBytes(bytes);
      case CStr(chars) => PutCStr(chars);
      case Words(words) => PutWords(words);
      case Tuple(items) => PutAll(items);
    }

    method PutAll(args: Args)
      requires Valid() && AllSendable(args) && mcount + |EncodeAll(args)| <= BUFFER_SIZE
      modifies `mcount, mdata
      ensures Valid() && Contents() == old(Contents()) + EncodeAll(args)
      decreases args
    {
      match args
      case Nil =>
      case Cons(head, tail) =>
        Put(head);
        PutAll(tail);
    }

    method Clean()
      requires Valid()
      modifies `mcount
      ensures Valid() && Contents() == []
    {
      mcount := 0;
    }
  }

  /** Decoding only moves the cursor: no method but `Fill` may write the receive buffer. */
  class Deserializer {
    const mdata: array<byte>
    var mcount: nat

    ghost predicate Valid() {
      mdata.Length == BUFFER_SIZE
    }

    constructor ()
      ensures Valid() && fresh(mdata) && mcount == 0
    {
      mdata := new byte[BUFFER_SIZE](_ => 0);
      mcount := 0;
    }

    /** `clean` and one `read` that returns `data`; bytes past it keep what earlier commands left there. */
    method Fill(data: seq<byte>)
      requires Valid() && |data| <= BUFFER_SIZE
      modifies `mcount, mdata
      ensures mcount == 0 && mdata[..] == Splice(old(mdata[..]), 0, data)
    {
      mcount := 0;
      CopyInto(mdata, 0, data);
    }

    method GetBytes(width: nat) returns (bytes: seq<byte>)
      requires Valid() && mcount + width <= BUFFER_SIZE
      modifies `mcount
      ensures bytes == mdata[old(mcount)..old(mcount) + width] && mcount == old(mcount) + width
    {
      bytes := mdata[mcount..mcount + width];
      mcount := mcount + width;
    }

    method GetSize() returns (size: u64)
      requires Valid() && mcount + 8 <= BUFFER_SIZE
      modifies `mcount
      ensures size == ReadU64(mdata[..], old(mcount)) && mcount == old(mcount) + 8
    {
      var bytes := GetBytes(8);
      assert bytes == mdata[..][old(mcount)..old(mcount) + 8];
      Pow256Of8();
      size := FromLE(bytes);
    }

    method GetSlots() returns (slots: seq<nat>)
      requires Valid() && mcount + 8 <= BUFFER_SIZE
      modifies `mcount
      ensures Decode(WordsOf, mdata[..], old(mcount)) == Got(SlotsView(slots), mcount)
    {
      var size := GetSize();
      ghost var first := mcount;
      slots := [];
      for i := 0 to size
        invariant slots == SlotsFrom(first, i) && mcount == first + 8 * i
      {
        slots := slots + [mcount];
        mcount := mcount + 8;
      }
    }

    method Get(shape: Shape) returns (v: View)
      requires Valid() && Decode(shape, mdata[..], mcount).Got?
      modifies `mcount
      ensures Decode(shape, mdata[..], old(mcount)) == Got(v, mcount)
      decreases shape
    {
      match shape
      case RawOf(width) =>
        var bytes := GetBytes(width);
        assert bytes == mdata[..][old(mcount)..mcount];
        v := RawView(bytes);
      case CStrOf =>
        var size := GetSize();
        v := CStrView(mcount);
        mcount := mcount + size + 1;
      case WordsOf =>
        var slots := GetSlots();
        v := SlotsView(slots);
      case TupleOf(items) =>
        var views := GetAll(items);
        v := TupleView(views);
    }

    method GetAll(shapes: Shapes) returns (vs: Views)
      requires Valid() && DecodeAll(shapes, mdata[..], mcount).Got?
      modifies `mcount
      ensures DecodeAll(shapes, mdata[..], old(mcount)) == Got(vs, mcount)
      decreases shapes
    {
      match shapes
      case NoShapes => vs := NoViews;
      case Shapes(head, tail) =>
        var v := Get(head);
        var rest := GetAll(tail);
        vs := Views(v, rest);
    }
  }
}
