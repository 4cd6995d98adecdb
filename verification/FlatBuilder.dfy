/** The FlatBuffers builder: it fills a byte slice from the back to the front. `Data()` is what has
    been written; every operation extends it at its front, so an offset (counted from the end)
    denotes the same bytes ever after. `ok == false` is the panic of a buffer that cannot grow. */
module FlatBuilder {
  import opened Alignment
  import opened Bytes
  import opened Common
  import opened Layout
  import T = Table

  const GIB: nat := 0x4000_0000

  // ---- growth ----

  /** The bits that growByteBuffer tests before doubling. */
  predicate Huge(len: nat) { len / GIB % 4 != 0 }

  function Doubled(len: nat): nat { if len == 0 then 1 else 2 * len }

  /** Doubling leads from `len` beyond `need` before it panics. */
  predicate CanGrow(len: nat, need: nat)
    decreases need + 1 - len
  {
    len > need || (!Huge(len) && CanGrow(Doubled(len), need))
  }

  /** The length at which the doubling stops. */
  function Grown(len: nat, need: nat): (n: nat)
    ensures n > need ==> CanGrow(len, need)
    ensures CanGrow(len, need) ==> n > need
    decreases need + 1 - len
  {
    if len > need || Huge(len) then len else Grown(Doubled(len), need)
  }

  /** Up to one gibibyte there is always room; from two on there never is. */
  lemma {:induction false} GrowthLimits(len: nat, need: nat)
    requires len < TWO31
    ensures need < GIB ==> CanGrow(len, need)
    ensures need >= TWO31 ==> !CanGrow(len, need)
    decreases need + 1 - len
  {
    if len <= need && !Huge(len) {
      assert len < GIB;
      GrowthLimits(Doubled(len), need);
    }
  }

  function Zeros(n: nat): seq<byte> { seq(n, _ => 0) }

  // ---- what the builder knows ----

  /** The slots that were set while the object was built: their offsets, 0 for a slot not set. */
  predicate InProgress(d: seq<byte>, objectEnd: nat, offs: seq<nat>, fields: seq<Option<Field>>, minalign: nat) {
    && |offs| == |fields| && objectEnd <= |d|
    && (forall i :: 0 <= i < |offs| ==> SlotSet(d, objectEnd, offs[i], fields[i], minalign))
  }

  predicate SlotSet(d: seq<byte>, objectEnd: nat, off: nat, f: Option<Field>, minalign: nat) {
    match f
    case None => off == 0
    case Some(x) => objectEnd < off && FieldAt(d, off, x) && Width(x) <= minalign
  }

  /** Every vtable, object and shared string that the builder remembers is where it should be. */
  predicate Known(d: seq<byte>, minalign: nat, vtables: seq<nat>, layouts: map<nat, seq<nat>>,
                  objects: map<nat, Object>, strings: map<seq<byte>, nat>) {
    && IsPow2(minalign)
    && Indexed(vtables, layouts)
    && VtablesAt(d, layouts)
    && ObjectsAt(d, minalign, objects)
    && StringsAt(d, strings)
  }

  predicate Indexed(vtables: seq<nat>, layouts: map<nat, seq<nat>>) {
    forall i :: 0 <= i < |vtables| ==> vtables[i] in layouts
  }

  predicate VtablesAt(d: seq<byte>, layouts: map<nat, seq<nat>>) {
    forall vt :: vt in layouts ==> vt <= |d| && VtableAt(d, vt, layouts[vt])
  }

  predicate ObjectsAt(d: seq<byte>, minalign: nat, objects: map<nat, Object>) {
    forall at :: at in objects ==> KnownObject(d, minalign, at, objects[at])
  }

  predicate StringsAt(d: seq<byte>, strings: map<seq<byte>, nat>) {
    forall s :: s in strings ==> VectorAt(d, strings[s], |s|, s + [0])
  }

  predicate KnownObject(d: seq<byte>, minalign: nat, at: nat, o: Object) {
    && ObjectAt(d, at, o) && minalign >= 4
    && (forall i :: 0 <= i < |o.fields| && o.fields[i].Some? ==> Width(o.fields[i].value) <= minalign)
  }

  lemma KnownExtends(d: seq<byte>, earlier: seq<byte>, minalign: nat, minalign': nat, vtables: seq<nat>,
                     layouts: map<nat, seq<nat>>, objects: map<nat, Object>, strings: map<seq<byte>, nat>)
    requires Extends(d, earlier) && minalign <= minalign' && IsPow2(minalign')
    requires Known(earlier, minalign, vtables, layouts, objects, strings)
    ensures Known(d, minalign', vtables, layouts, objects, strings)
  {
    forall vt | vt in layouts ensures vt <= |d| && VtableAt(d, vt, layouts[vt]) {
      VtableExtends(d, earlier, vt, layouts[vt]);
    }
    forall at | at in objects ensures KnownObject(d, minalign', at, objects[at]) {
      assert KnownObject(earlier, minalign, at, objects[at]);
      ObjectExtends(d, earlier, at, objects[at]);
    }
    forall s | s in strings ensures VectorAt(d, strings[s], |s|, s + [0]) {
      VectorExtends(d, earlier, strings[s], |s|, s + [0]);
    }
  }

  lemma InProgressExtends(d: seq<byte>, earlier: seq<byte>, objectEnd: nat, offs: seq<nat>,
                          fields: seq<Option<Field>>, minalign: nat, minalign': nat)
    requires Extends(d, earlier) && minalign <= minalign'
    requires InProgress(earlier, objectEnd, offs, fields, minalign)
    ensures InProgress(d, objectEnd, offs, fields, minalign')
  {
    forall i | 0 <= i < |offs| ensures SlotSet(d, objectEnd, offs[i], fields[i], minalign') {
      assert SlotSet(earlier, objectEnd, offs[i], fields[i], minalign);
      if fields[i].Some? {
        FieldExtends(d, earlier, offs[i], fields[i].value);
      }
    }
  }

  lemma ExtendsLonger(d: seq<byte>, earlier: seq<byte>)
    requires Extends(d, earlier)
    ensures |earlier| <= |d|
  {
  }

  lemma Stays(d: seq<byte>)
    ensures Extends(d, d)
  {
  }

  /** Bytes put in front of data with some padding between. */
  lemma InFront(bs: seq<byte>, gap: nat, d: seq<byte>)
    ensures var e := bs + Zeros(gap) + d;
            && e == bs + (Zeros(gap) + d) && |e| == |bs| + gap + |d|
            && Extends(e, d) && Has(e, |e|, bs)
  {
    var e := bs + Zeros(gap) + d;
    assert e == bs + (Zeros(gap) + d);
    PrependExtends(bs + Zeros(gap), d);
    PrependExtends(bs, Zeros(gap) + d);
  }

  /** A distance just placed is a reference. */
  lemma RefPlaced(d: seq<byte>, off: nat, distance: nat, target: nat)
    requires Has(d, off, Put(distance, 4)) && Multiple(off, 4) && 0 < target && distance >= 4 && off == target + distance
    requires distance < TWO32
    ensures FieldAt(d, off, Ref(target))
  {
    Ranges();
    HasIsUint(d, off, 4, distance);
  }

  /** Where the offset is aligned already, nothing is padded. */
  lemma NoGap(bs: seq<byte>, d: seq<byte>)
    requires |bs| > 0 && Multiple(|d|, |bs|)
    ensures Gap(|d|, |bs|, 0) == 0 && bs + Zeros(Gap(|d|, |bs|, 0)) + d == bs + d
  {
    AlreadyAligned(|d|, |bs|);
  }

  lemma ScalarPlaced(d: seq<byte>, off: nat, bs: seq<byte>)
    requires IsWidth(|bs|) && Has(d, off, bs) && Multiple(off, |bs|)
    ensures FieldAt(d, off, Scalar(bs))
  {
  }

  /** The bytes of a number that starts the data, least significant first. */
  lemma LeadingBytes(d: seq<byte>, x: nat, w: nat)
    requires Has(d, |d|, Put(x, w))
    ensures w <= |d| && forall i :: 0 <= i < w ==> d[i] == x / Bytes.Range(i) % 256
  {
    forall i | 0 <= i < w ensures d[i] == x / Bytes.Range(i) % 256 {
      assert d[i] == d[0..w][i];
      PutLittleEndian(x, w, i);
    }
  }

  // ---- comparing vtables ----

  /** An entry `x` of a written vtable against a slot of an unwritten one, as vtableEqual does it. */
  predicate EntryMatches(x: nat, off: nat, objectStart: nat) {
    (x == 0 && off == 0) || x == objectStart - off
  }

  /** What the vtable entry of a slot at `off` should be. */
  function EntryOf(off: nat, objectStart: nat): int { if off == 0 then 0 else objectStart - off }

  method VtableEqual(a: seq<nat>, objectStart: nat, b: seq<byte>) returns (r: bool)
    requires objectStart < TWO31 && forall i :: 0 <= i < |a| ==> a[i] < TWO31
    ensures r <==> |b| == 2 * |a| && forall i :: 0 <= i < |a| ==> EntryMatches(Get(b[2 * i..2 * i + 2]), a[i], objectStart)
  {
    if |a| * 2 != |b| {
      return false;
    }
    var i := 0;
    while i < |a|
      invariant 0 <= i <= |a|
      invariant forall j :: 0 <= j < i ==> EntryMatches(Get(b[2 * j..2 * j + 2]), a[j], objectStart)
    {
      var x := Get(b[i * 2..(i + 1) * 2]);
      if x == 0 && a[i] == 0 {
        i := i + 1;
        continue;
      }
      var y: int := objectStart - a[i];
      if x != y {
        return false;
      }
      i := i + 1;
    }
    return true;
  }

  /** Sharing is sound and complete: an earlier vtable is accepted exactly if it gives every slot the
      entry that the new object needs - the same field offset, or absence in both. That an entry is
      smaller than its vtable's offset, and a field's offset smaller than its object's, rules out the
      two mixed cases that the comparison itself does not exclude. */
  lemma SharingExact(es: seq<nat>, vt: nat, offs: seq<nat>, objectStart: nat)
    requires forall i :: 0 <= i < |es| ==> es[i] < vt
    requires vt < objectStart && forall i :: 0 <= i < |offs| ==> offs[i] < objectStart
    ensures (|es| == |offs| && forall i :: 0 <= i < |es| ==> EntryMatches(es[i], offs[i], objectStart))
            <==> (|es| == |offs| && forall i :: 0 <= i < |es| ==> es[i] == EntryOf(offs[i], objectStart))
  {
    if |es| == |offs| {
      forall i | 0 <= i < |es| ensures EntryMatches(es[i], offs[i], objectStart) <==> es[i] == EntryOf(offs[i], objectStart) {
        assert es[i] < vt && offs[i] < objectStart;
      }
    }
  }

  /** Without the bound on entries the comparison would take a present field for an absent one. */
  lemma MixedCase(objectStart: nat)
    requires objectStart > 0
    ensures EntryMatches(objectStart, 0, objectStart) && objectStart != EntryOf(0, objectStart)
  {
  }

  /** The vtable without its trailing zeroes. */
  function Trim(offs: seq<nat>): (t: seq<nat>)
    ensures t <= offs
    ensures forall i :: |t| <= i < |offs| ==> offs[i] == 0
    ensures t != [] ==> t[|t| - 1] != 0
  {
    if offs != [] && offs[|offs| - 1] == 0 then Trim(offs[..|offs| - 1]) else offs
  }

  /** The conversion to VOffsetT. */
  function U16(x: int): (r: nat)
    ensures r < 0x1_0000
  {
    x % 0x1_0000
  }

  /** The entries that the new object needs, cut to 16 bits as they are stored. */
  function Entries(offs: seq<nat>, at: nat): (es: seq<nat>)
    requires forall i :: 0 <= i < |offs| ==> offs[i] < at
    ensures |es| == |offs| && forall i :: 0 <= i < |es| ==> es[i] == U16(EntryOf(offs[i], at))
  {
    seq(|offs|, i requires 0 <= i < |offs| => U16(EntryOf(offs[i], at)))
  }

  lemma PutAllFront(xs: seq<nat>, w: nat, i: nat, d: seq<byte>)
    requires i < |xs|
    ensures Put(xs[i], w) + (PutAll(xs[i + 1..], w) + d) == PutAll(xs[i..], w) + d
  {
    hide Put;
    assert xs[i..][0] == xs[i] && xs[i..][1..] == xs[i + 1..];
    Regroup([], Put(xs[i], w), PutAll(xs[i + 1..], w), d);
    assert [] + (Put(xs[i], w) + (PutAll(xs[i + 1..], w) + d)) == Put(xs[i], w) + (PutAll(xs[i + 1..], w) + d);
  }

  lemma VtableFront(size: nat, es: seq<nat>, d: seq<byte>)
    ensures Put(4 + 2 * |es|, 2) + (Put(size, 2) + (PutAll(es, 2) + d)) == VtableBytes(size, es) + d
  {
    Regroup(Put(4 + 2 * |es|, 2), Put(size, 2), PutAll(es, 2), d);
  }

  lemma Regroup(a: seq<byte>, b: seq<byte>, c: seq<byte>, d: seq<byte>)
    ensures a + (b + (c + d)) == a + b + c + d
  {
  }

  /** A written vtable gives each slot of an object at `at` the entry it needs. */
  predicate Fits(es: seq<nat>, offs: seq<nat>, at: nat) {
    |es| == |offs| && forall i :: 0 <= i < |es| ==> es[i] == EntryOf(offs[i], at)
  }

  lemma EntriesBounded(d: seq<byte>, vt: nat, es: seq<nat>)
    requires VtableAt(d, vt, es)
    ensures forall i :: 0 <= i < |es| ==> es[i] < vt
  {
    forall i | 0 <= i < |es| ensures es[i] < vt {
      assert EntryAt(d, vt, i, es[i]);
    }
  }

  /** What vtableEqual is given of a written vtable. */
  lemma VtableSlice(bytes: seq<byte>, head: nat, vt: nat, es: seq<nat>)
    requires head <= |bytes| && VtableAt(bytes[head..], vt, es)
    ensures vt <= |bytes| && Get(bytes[|bytes| - vt..|bytes| - vt + 2]) == 4 + 2 * |es|
    ensures |bytes| - vt + 4 + 2 * |es| <= |bytes|
    ensures var b := bytes[|bytes| - vt + 4..|bytes| - vt + 4 + 2 * |es|];
            forall i :: 0 <= i < |es| ==> Get(b[2 * i..2 * i + 2]) == es[i]
  {
    var d := bytes[head..];
    assert d[|d| - vt..|d| - vt + 2] == bytes[|bytes| - vt..|bytes| - vt + 2];
    var b := bytes[|bytes| - vt + 4..|bytes| - vt + 4 + 2 * |es|];
    forall i | 0 <= i < |es| ensures Get(b[2 * i..2 * i + 2]) == es[i] {
      assert EntryAt(d, vt, i, es[i]);
      var k := |d| - (vt - (4 + 2 * i));
      assert bytes[head..|bytes|] == d;
      SubSlice(bytes, head, |bytes| - head, k, 2);
      SubSlice(bytes, |bytes| - vt + 4, 2 * |es|, 2 * i, 2);
    }
  }

  /** The object just finished is what it was meant to be, if every distance fits its entry. */
  lemma ObjectFinished(d: seq<byte>, earlier: seq<byte>, objectEnd: nat, offs: seq<nat>, fields: seq<Option<Field>>,
                       minalign: nat, at: nat, vt: nat, es: seq<nat>)
    requires Extends(d, earlier) && InProgress(earlier, objectEnd, offs, fields, minalign) && minalign >= 4
    requires HasInt(d, at, vt - at) && VtableAt(d, vt, es) && |earlier| < at
    requires Fits(es, Trim(offs), at)
    ensures KnownObject(d, minalign, at, Object(vt, es, fields))
  {
    var t := Trim(offs);
    forall i | 0 <= i < |fields| ensures SlotAt(d, at, Entry(es, i), fields[i])
      && (fields[i].Some? ==> Width(fields[i].value) <= minalign)
    {
      assert SlotSet(earlier, objectEnd, offs[i], fields[i], minalign);
      assert i < |t| ==> t[i] == offs[i];
      if fields[i].Some? {
        FieldExtends(d, earlier, offs[i], fields[i].value);
      }
    }
  }

  /** Every field lies less than 64 KiB behind the start of its object. */
  predicate Near(offs: seq<nat>, at: nat) {
    forall i :: 0 <= i < |offs| ==> offs[i] == 0 || at - offs[i] < 0x1_0000
  }

  /** The vtable of a sealed object, an earlier one or a new one. */
  predicate LayoutFor(es: seq<nat>, offs: seq<nat>, at: nat) {
    (forall i :: 0 <= i < |offs| ==> offs[i] < at) && (Fits(es, offs, at) || es == Entries(offs, at))
  }

  /** That is exactly when the vtable of a sealed object, an earlier one or a new one, fits it. */
  lemma FitsIffNear(d: seq<byte>, vt: nat, es: seq<nat>, offs: seq<nat>, at: nat)
    requires VtableAt(d, vt, es) && LayoutFor(es, offs, at)
    ensures Fits(es, offs, at) <==> Near(offs, at)
  {
    hide U16;
    if Near(offs, at) {
      forall i | 0 <= i < |es| ensures es[i] == EntryOf(offs[i], at) {
        assert offs[i] == 0 || at - offs[i] < 0x1_0000;
        Shortened(offs[i], at);
      }
    }
    if Fits(es, offs, at) {
      forall i | 0 <= i < |offs| ensures offs[i] == 0 || at - offs[i] < 0x1_0000 {
        assert EntryAt(d, vt, i, es[i]);
      }
    }
  }

  /** The reader is led to every field of the object at `at`, and to none where no field was written. */
  predicate LeadsToSlots(d: seq<byte>, at: nat, offs: seq<nat>) {
    at <= |d| && forall i :: 0 <= i < |offs| ==> T.VtableOffset(d, |d| - at, 4 + 2 * i) == Some(EntryOf(offs[i], at))
  }

  /** A sealed object reads right, whichever vtable it got, exactly if all its fields are near. */
  lemma ReadsRightIffNear(d: seq<byte>, vt: nat, es: seq<nat>, offs: seq<nat>, at: nat)
    requires HasInt(d, at, vt - at) && VtableAt(d, vt, es) && LayoutFor(es, offs, at) && |d| < TWO31
    ensures LeadsToSlots(d, at, offs) <==> Near(offs, at)
  {
    hide Near, VtableAt, HasInt, T.VtableOffset;
    FitsIffNear(d, vt, es, offs, at);
    InBuffer(d, at, vt - at);
    forall i | 0 <= i < |offs| ensures T.VtableOffset(d, |d| - at, 4 + 2 * i) == Some(es[i]) {
      SlotOffset(d, at, vt, es, i);
    }
  }

  lemma InBuffer(d: seq<byte>, at: nat, n: int)
    requires HasInt(d, at, n)
    ensures at <= |d|
  {
  }

  /** A field exactly 64 KiB behind the start of its object: a slot that was given 7 reads as absent. */
  lemma FarFieldLost(default: nat)
    ensures var at, rest := 65540, Zeros(65532) + Put(7, 4);
            var d := VtableBytes(U16(at), Entries([4], at)) + (PutSigned(6) + rest);
            && HasInt(d, at, |d| - at) && VtableAt(d, |d|, Entries([4], at)) && !Near([4], at)
            && FieldAt(d, 4, Scalar(Put(7, 4))) && T.GetSlot(d, |d| - at, 4, 4, default) == Some(default)
  {
    hide HasInt, VtableAt, PutSigned, Put, VtableBytes, HasUint;
    var at, rest, es := 65540, Zeros(65532) + Put(7, 4), Entries([4], 65540);
    var v, p := VtableBytes(U16(at), es), PutSigned(6);
    var d := v + (p + rest);
    assert es == [0];
    VtableWritten(p + rest, U16(at), es);
    SOffsetInPlace(v, 6, rest);
    assert d == (v + p + Zeros(65532)) + Put(7, 4);
    PrependExtends(v + p + Zeros(65532), Put(7, 4));
    assert Put(7, 4) + [] == Put(7, 4);
    PrependExtends(Put(7, 4), []);
    HasExtends(d, Put(7, 4), 4, Put(7, 4));
    SlotOffset(d, at, |d|, es, 0);
    var offs := [4];
    assert offs[0] != 0 && at - offs[0] >= 0x1_0000;
  }

  /** The size of a vtable fits its 16 bits exactly up to so many slots. */
  lemma VtableSizeLimit(slots: nat)
    ensures U16(4 + 2 * slots) == 4 + 2 * slots <==> slots <= MAX_FIELDS
  {
  }

  lemma Shortened(off: nat, at: nat)
    requires off < at
    ensures U16(EntryOf(off, at)) == EntryOf(off, at) <==> off == 0 || at - off < 0x1_0000
  {
  }

  /** In an object of at most 64 KiB every field is near. */
  lemma SmallNear(d: seq<byte>, objectEnd: nat, offs: seq<nat>, fields: seq<Option<Field>>, minalign: nat, at: nat)
    requires InProgress(d, objectEnd, offs, fields, minalign) && |d| < at
    ensures at - objectEnd <= 0x1_0000 ==> Near(Trim(offs), at)
  {
    SlotsInside(d, objectEnd, offs, fields, minalign, Trim(offs));
  }

  /** A stored entry leads the reader back to its field exactly if the distance is below 64 KiB. */
  lemma EntryLimit(off: nat, at: nat)
    requires 0 < off < at
    ensures at - U16(EntryOf(off, at)) == off <==> at - off < 0x1_0000
  {
  }

  /** The offsets of the slots set lie in the object's data. */
  lemma SlotsInside(d: seq<byte>, objectEnd: nat, offs: seq<nat>, fields: seq<Option<Field>>, minalign: nat, t: seq<nat>)
    requires InProgress(d, objectEnd, offs, fields, minalign) && t <= offs
    ensures forall i :: 0 <= i < |t| ==> t[i] <= |d| && (t[i] == 0 || objectEnd < t[i])
  {
    forall i | 0 <= i < |t| ensures t[i] <= |d| && (t[i] == 0 || objectEnd < t[i]) {
      assert SlotSet(d, objectEnd, offs[i], fields[i], minalign);
    }
  }

  /** A new vtable and a new object join what is known. */
  lemma KnownGrows(d: seq<byte>, rest: seq<byte>, m: nat, minalign: nat, vtables: seq<nat>, layouts: map<nat, seq<nat>>,
                   objects: map<nat, Object>, strings: map<seq<byte>, nat>, vt: nat, es: seq<nat>)
    requires Extends(d, rest) && m <= minalign && IsPow2(minalign)
    requires Known(rest, m, vtables, layouts, objects, strings) && VtableAt(d, vt, es)
    ensures Known(d, minalign, vtables + [vt], layouts[vt := es], objects, strings)
  {
    KnownExtends(d, rest, m, minalign, vtables, layouts, objects, strings);
  }

  /** The reference to a vtable, in place. */
  lemma SOffsetInPlace(front: seq<byte>, soff: int, rest: seq<byte>)
    requires -TWO31 <= soff < TWO31
    ensures HasInt(front + (PutSigned(soff) + rest), 4 + |rest|, soff)
  {
    var r := PutSigned(soff) + rest;
    PrependExtends(PutSigned(soff), rest);
    PrependExtends(front, r);
    HasExtends(front + r, r, |r|, PutSigned(soff));
    HasIsInt(front + r, |r|, soff);
  }

  /** A new vtable in front of an object whose reference `p` to it is in place. */
  lemma VtableInPlace(size: nat, es: seq<nat>, p: seq<byte>, rest: seq<byte>, minalign: nat, vtables: seq<nat>,
                      layouts: map<nat, seq<nat>>, objects: map<nat, Object>, strings: map<seq<byte>, nat>)
    requires Known(rest, minalign, vtables, layouts, objects, strings)
    requires |es| <= MAX_FIELDS && forall i :: 0 <= i < |es| ==> es[i] < 0x1_0000 && es[i] < 4 + 2 * |es| + |p| + |rest|
    ensures var d := VtableBytes(size, es) + (p + rest);
            && Extends(d, rest) && VtableAt(d, |d|, es)
            && Known(d, minalign, vtables + [|d|], layouts[|d| := es], objects, strings)
  {
    var v, r := VtableBytes(size, es), p + rest;
    PrependExtends(p, rest);
    PrependExtends(v, r);
    ExtendsTransitive(v + r, r, rest);
    VtableWritten(r, size, es);
    KnownGrows(v + r, rest, minalign, minalign, vtables, layouts, objects, strings, |v + r|, es);
  }

  /** The bytes of an object sealed at `at` with a vtable of its own: the vtable, the distance to it, and
      the object's data `rest`. */
  function NewObject(at: nat, objectEnd: nat, offs: seq<nat>, rest: seq<byte>): seq<byte>
    requires objectEnd <= at && forall i :: 0 <= i < |offs| ==> offs[i] < at
  {
    VtableBytes(U16(at - objectEnd), Entries(offs, at)) + (PutSigned(4 + 2 * |offs|) + rest)
  }

  /** The smallest example: one slot, given a one-byte 1. */
  lemma OneTrueBool()
    ensures NewObject(8, 0, [1], Zeros(3) + [1]) == [6, 0, 8, 0, 7, 0, 6, 0, 0, 0, 0, 0, 0, 1]
  {
    hide Put, PutAll, PutSigned, Zeros, Bytes.Range, Span;
    var es := Entries([1], 8);
    assert es == [7] && U16(8) == 8;
    TwoBytes(6);
    TwoBytes(8);
    OneEntry(7);
    FourBytes(6);
    ThreeZeros();
    assert VtableBytes(8, es) == [6, 0] + [8, 0] + [7, 0];
  }

  lemma OneEntry(n: nat)
    requires n < 256
    ensures PutAll([n], 2) == [n, 0]
  {
    TwoBytes(n);
    assert [n][1..] == [];
    assert PutAll([n], 2) == Put(n, 2) + PutAll([], 2);
  }

  lemma ThreeZeros()
    ensures Zeros(3) == [0, 0, 0]
  {
  }

  lemma TwoBytes(n: nat)
    requires n < 256
    ensures Put(n, 2) == [n, 0]
  {
    assert Put(n / 256, 1) == [0] + Put(0, 0);
  }

  lemma FourBytes(n: nat)
    requires n < 256
    ensures PutSigned(n) == [n, 0, 0, 0]
  {
    TwoBytes(0);
    assert Put(0, 3) == [0] + Put(0, 2);
    assert Put(n, 4) == [n] + Put(0, 3);
  }

  /** Some vtable already written gives every slot the entry it needs. */
  predicate HasLayout(vtables: seq<nat>, layouts: map<nat, seq<nat>>, offs: seq<nat>, at: nat) {
    exists i :: 0 <= i < |vtables| && vtables[i] in layouts && Fits(layouts[vtables[i]], offs, at)
  }

  /** An object whose reference to an earlier vtable is in place. */
  lemma SharedInPlace(at: nat, vt: nat, rest: seq<byte>, minalign: nat, vtables: seq<nat>,
                      layouts: map<nat, seq<nat>>, objects: map<nat, Object>, strings: map<seq<byte>, nat>)
    requires Known(rest, minalign, vtables, layouts, objects, strings) && vt in layouts && at == 4 + |rest| < TWO31
    ensures var d := PutSigned(vt - at) + rest;
            && Extends(d, rest) && HasInt(d, at, vt - at) && VtableAt(d, vt, layouts[vt])
            && Known(d, minalign, vtables, layouts, objects, strings)
  {
    var p := PutSigned(vt - at);
    PrependExtends(p, rest);
    SOffsetInPlace([], vt - at, rest);
    assert [] + (p + rest) == p + rest;
    KnownExtends(p + rest, rest, minalign, minalign, vtables, layouts, objects, strings);
  }

  /** What sealing an object at `at` with a vtable of `n` slots does to the vtables written. */
  predicate Chosen(before: seq<nat>, after: seq<nat>, shared: bool, at: nat, offset: nat, n: nat) {
    if shared then after == before && offset == at else after == before + [offset] && offset == at + 4 + 2 * n
  }

  /** What sealing an object at `at` does to the objects known. */
  predicate Recorded(before: map<nat, Object>, after: map<nat, Object>, at: nat, fields: seq<Option<Field>>, near: bool) {
    if near then at in after && after == before[at := after[at]] && after[at].fields == fields else after == before
  }

  /** Elements placed behind one another, then their count: a vector of references. */
  predicate RefsPlaced(d: seq<byte>, top: nat, targets: seq<nat>, from: nat) {
    forall j :: from <= j < |targets| ==> 4 * j <= top && FieldAt(d, top - 4 * j, Ref(targets[j]))
  }

  lemma OneMoreRef(d: seq<byte>, earlier: seq<byte>, top: nat, targets: seq<nat>, from: nat)
    requires Extends(d, earlier) && from < |targets| && RefsPlaced(earlier, top, targets, from + 1)
    requires 4 * from <= top && FieldAt(d, top - 4 * from, Ref(targets[from]))
    ensures RefsPlaced(d, top, targets, from)
  {
    forall j | from < j < |targets| ensures FieldAt(d, top - 4 * j, Ref(targets[j])) {
      FieldExtends(d, earlier, top - 4 * j, Ref(targets[j]));
    }
  }

  lemma RefsBehindCount(d: seq<byte>, earlier: seq<byte>, off: nat, targets: seq<nat>)
    requires Extends(d, earlier) && off == |earlier| + 4 && HasUint(d, off, 4, |targets|)
    requires RefsPlaced(earlier, |earlier|, targets, 0)
    ensures RefsAt(d, off, targets)
  {
    forall i | 0 <= i < |targets| ensures FieldAt(d, off - 4 - 4 * i, Ref(targets[i])) {
      assert FieldAt(earlier, |earlier| - 4 * i, Ref(targets[i]));
      FieldExtends(d, earlier, |earlier| - 4 * i, Ref(targets[i]));
    }
    if targets != [] {
      assert FieldAt(earlier, |earlier| - 4 * (|targets| - 1), Ref(targets[|targets| - 1]));
    }
  }

  /** Bytes and a tail behind their count: a vector. */
  lemma CountInFront(d: seq<byte>, earlier: seq<byte>, off: nat, n: nat, data: seq<byte>)
    requires Extends(d, earlier) && off == |earlier| + 4 && HasUint(d, off, 4, n) && Has(earlier, |earlier|, data)
    ensures VectorAt(d, off, n, data)
  {
    HasExtends(d, earlier, |earlier|, data);
  }

  lemma OneMoreByte(bs: seq<byte>, i: nat, d: seq<byte>)
    requires i < |bs|
    ensures [bs[i]] + (bs[i + 1..] + d) == bs[i..] + d
  {
    assert bs[i..] == [bs[i]] + bs[i + 1..];
  }

  /** Data placed in two parts. */
  lemma TwoParts(a: seq<byte>, b: seq<byte>, d: seq<byte>)
    ensures Extends(a + (b + d), d) && Has(a + (b + d), |a| + |b| + |d|, a + b)
  {
    assert a + (b + d) == (a + b) + d;
    PrependExtends(a + b, d);
  }

  /** In a buffer whose length is a multiple of the largest alignment, every field starts at a multiple
      of its width. */
  lemma SlotAligned(d: seq<byte>, minalign: nat, at: nat, o: Object, i: nat)
    requires KnownObject(d, minalign, at, o) && IsPow2(minalign) && |d| < TWO31
    requires i < |o.fields| && o.fields[i].Some?
    ensures at <= |d| && IsWidth(Width(o.fields[i].value))
    ensures var off := T.VtableOffset(d, |d| - at, 4 + 2 * i);
            off.Some? && (Multiple(|d|, minalign) ==> Multiple(|d| - at + off.value, Width(o.fields[i].value)))
  {
    hide Multiple;
    SlotOffset(d, at, o.vt, o.es, i);
    var e, f := Entry(o.es, i), o.fields[i].value;
    assert SlotAt(d, at, e, o.fields[i]);
    WidthPow2(Width(f));
    if Multiple(|d|, minalign) {
      FromStart(|d|, minalign, at - e, Width(f));
      assert |d| - at + e == |d| - (at - e);
    }
  }

  /** A vector whose end is aligned starts where its elements are aligned. */
  lemma ElementsFit(offset: nat, n: nat, w: nat, alignment: nat)
    requires IsPow2(alignment) && IsWidth(w) && w <= alignment && Multiple(offset + Span(w, n), alignment)
    ensures Multiple(offset, w)
  {
    hide Multiple, IsPow2;
    WidthPow2(w);
    Pow2Divides(w, alignment);
    Transitive(offset + Span(w, n), alignment, w);
    SpanTimes(w, n);
    Times(n, w);
    Difference(offset + Span(w, n), Span(w, n), w);
  }

  // ---- finishing ----

  /** Finishing a buffer of length `len` with a size prefix, with `n` bytes to come, runs out of room:
      what was made for a reference aligned to less than 4 is one byte short. */
  predicate Tight(len: nat, offset: nat, minalign: nat, n: nat) {
    minalign == 1 && offset % 4 == 1 && Grown(len, offset + n + 1) == offset + n + 2
  }

  /** The room left once the reference to the root is in place. */
  lemma RoomLeft(len: nat, offset: nat, minalign: nat)
    requires IsPow2(minalign)
    requires var d := offset + Gap(offset, minalign, 8); Grown(len, d + minalign + 8) > d + minalign + 8
    ensures var d := offset + Gap(offset, minalign, 8); var head := Grown(len, d + minalign + 8) - d;
            head > Gap(d, 4, 0) + 4 && (head - Gap(d, 4, 0) - 4 < 4 <==> Tight(len, offset, minalign, 8))
  {
    hide Grown, CanGrow;
    var d := offset + Gap(offset, minalign, 8);
    if minalign >= 4 {
      GapAligns(offset, minalign, 8);
      WordsToGo(d, 8, minalign);
      AlreadyAligned(d, 4);
    } else {
      assert minalign == 1 || minalign == 2;
    }
  }

  /** The same, when a file identifier was placed first. */
  lemma TightLater(len: nat, offset: nat, minalign: nat)
    requires minalign > 0
    requires var d := offset + Gap(offset, minalign, 12); Grown(len, d + minalign + 12) > d + minalign + 12
    ensures var d := offset + Gap(offset, minalign, 12);
            Tight(Grown(len, d + minalign + 12), d + 4, minalign, 8) <==> Tight(len, offset, minalign, 12)
  {
    if minalign == 1 {
      GrownFar(Grown(len, offset + 13), offset + 13);
    }
  }

  lemma GrownFar(len: nat, need: nat)
    requires len > need
    ensures Grown(len, need) == len
  {
  }

  /** The identifier ends up right behind the root offset, with no padding between. */
  predicate IdentifierInPlace(offset: nat, minalign: nat, rest: nat)
    requires minalign > 0
  {
    Multiple(offset + Gap(offset, minalign, rest + 4), 4)
  }

  lemma IdentifierStays(offset: nat, minalign: nat, rest: nat)
    requires IsPow2(minalign) && minalign >= 4 && Multiple(rest + 4, 4)
    ensures IdentifierInPlace(offset, minalign, rest)
  {
    hide Multiple, Gap;
    GapAligns(offset, minalign, rest + 4);
    WordsToGo(offset + Gap(offset, minalign, rest + 4), rest + 4, minalign);
  }

  lemma PlacedIffAligned(offset: nat, minalign: nat, rest: nat)
    requires minalign > 0
    ensures Gap(offset + Gap(offset, minalign, rest + 4) + 4, 4, 0) == 0 <==> IdentifierInPlace(offset, minalign, rest)
  {
    var x := offset + Gap(offset, minalign, rest + 4);
    assert (x + 4) % 4 == x % 4;
  }

  /** A builder of 11 bytes with one byte written: its size prefix does not fit, and its identifier is
      not where the reader looks. */
  lemma OneByteWritten()
    ensures Tight(11, 1, 1, 8) && !IdentifierInPlace(1, 1, 4)
  {
  }

  /** Where the root reference leaves the offset. */
  lemma RootAligned(x: nat, n: nat, m: nat)
    requires IsPow2(m) && Multiple(x + n, m) && (n == 4 || n == 8)
    ensures Multiple(x + Gap(x, 4, 0) + 4 + (n - 4), if 4 > m then 4 else m)
  {
    Times(n / 4, 4);
    if m >= 4 {
      WordsToGo(x, n, m);
      AlreadyAligned(x, 4);
    } else {
      Aligned(x, 4);
      Times((n - 4) / 4, 4);
      Sum(x + Gap(x, 4, 0) + 4, n - 4, 4);
    }
  }

  /** Behind `g` bytes of padding the identifier is read right only if there is none, or if the
      identifier is all zeros. */
  lemma IdentifierRead(d: seq<byte>, k: nat, g: nat, rest: seq<byte>, fid: seq<byte>)
    requires k <= |d| && d[k..] == Zeros(g) + rest && g < 4 && |fid| == 4 && Has(rest, |rest|, fid)
    ensures T.Cut(d, k, 4) == Some(fid) <==> g == 0 || fid == Zeros(4)
  {
    var z := Zeros(g);
    var cut := d[k..k + 4];
    assert forall i :: 0 <= i < 4 ==> rest[i] == fid[i];
    assert forall i :: 0 <= i < 4 ==> cut[i] == d[k..][i] == (z + rest)[i] == if i < g then 0 else fid[i - g];
    if cut == fid && g > 0 {
      assert fid[0] == cut[0] == 0;
      assert fid[1] == cut[1] == 0;
      assert fid[2] == cut[2] == 0;
      assert fid[3] == cut[3] == 0;
    }
  }

  // ---- the builder ----

  class Builder {
    var bytes: seq<byte>
    var head: nat
    var minalign: nat
    var vtable: seq<nat>
    var objectEnd: nat
    var vtables: seq<nat>
    var nested: bool
    var finished: bool
    var sharedStrings: map<seq<byte>, nat>

    ghost var layouts: map<nat, seq<nat>>          // the vtables written, by offset
    ghost var objects: map<nat, Object>            // the objects finished, by offset
    ghost var building: bool                       // between StartObject and EndObject
    ghost var fields: seq<Option<Field>>           // the slots of the object being built

    ghost predicate Sound()
      reads `bytes, `head, `minalign
    {
      head <= |bytes| < TWO31 && IsPow2(minalign)
    }

    /** What has been written so far. */
    ghost function Data(): (d: seq<byte>)
      requires head <= |bytes|
      reads `bytes, `head
      ensures |d| == |bytes| - head
    {
      bytes[head..]
    }

    ghost predicate Valid()
      reads this
    {
      && Sound()
      && Known(Data(), minalign, vtables, layouts, objects, sharedStrings)
      && (building ==> nested && InProgress(Data(), objectEnd, vtable, fields, minalign))
    }

    constructor (initialSize: int)
      requires initialSize < TWO31
      ensures Valid() && Data() == [] && !nested && !building && !finished && minalign == 1
      ensures objects == map[] && sharedStrings == map[] && |bytes| == if initialSize <= 0 then 0 else initialSize
    {
      var size := if initialSize <= 0 then 0 else initialSize;
      bytes := Zeros(size);
      head := size;
      minalign := 1;
      vtable, vtables, objectEnd := [], [], 0;
      nested, finished := false, false;
      sharedStrings := map[];
      layouts, objects, building, fields := map[], map[], false, [];
    }

    /** growByteBuffer: double the slice and move what there is to its end. */
    method Grow() returns (ok: bool)
      requires Sound()
      modifies `bytes, `head
      ensures ok == !Huge(old(|bytes|)) && Sound() && Data() == old(Data())
      ensures |bytes| == if ok then Doubled(old(|bytes|)) else old(|bytes|)
    {
      if |bytes| / GIB % 4 != 0 {
        return false;
      }
      assert |bytes| < GIB;
      ghost var d := Data();
      var newLen := if |bytes| == 0 then 1 else |bytes| * 2;
      var extension := Zeros(newLen - |bytes|);
      var oldLen := |bytes|;
      bytes := bytes + extension;
      var middle := newLen / 2;
      bytes := bytes[..middle] + bytes[..middle] + bytes[middle + middle..];
      head := head + (newLen - oldLen);
      assert Data() == d;
      return true;
    }

    /** Offset: the number of bytes written. */
    function Offset(): (n: nat)
      requires head <= |bytes|
      reads `bytes, `head
    {
      |bytes| - head
    }

    /** Place*: put bytes in front, without checking for space. */
    method Place(bs: seq<byte>)
      requires Sound() && |bs| <= head
      modifies `bytes, `head
      ensures Sound() && Data() == bs + old(Data())
      ensures |bytes| == old(|bytes|) && head == old(head) - |bs|
    {
      ghost var d := Data();
      head := head - |bs|;
      bytes := bytes[..head] + bs + bytes[head + |bs|..];
      assert Data() == bs + d;
    }

    method Pad(n: nat)
      requires Sound() && n <= head
      modifies `bytes, `head
      ensures Sound() && Data() == Zeros(n) + old(Data())
      ensures |bytes| == old(|bytes|) && head == old(head) - n
    {
      hide IsPow2, Data;
      var i := 0;
      ghost var d := Data();
      assert Zeros(0) + d == d;
      while i < n
        invariant 0 <= i <= n && Sound() && Data() == Zeros(i) + d
        invariant |bytes| == old(|bytes|) && head == old(head) - i
      {
        Place([0]);
        assert [0] + (Zeros(i) + d) == Zeros(i + 1) + d;
        i := i + 1;
      }
    }

    /** Prep: align for `size` bytes after `additional` more, and make room for all of them. It
        succeeds exactly if the buffer can be grown that far. */
    method Prep(size: nat, additional: nat) returns (ok: bool)
      requires Sound() && IsPow2(size)
      modifies `bytes, `head, `minalign
      ensures Sound() && minalign == if size > old(minalign) then size else old(minalign)
      ensures ok == CanGrow(old(|bytes|), old(Offset()) + Gap(old(Offset()), size, additional) + size + additional)
      ensures ok ==> Data() == Zeros(Gap(old(Offset()), size, additional)) + old(Data()) && head > size + additional
      ensures old(head) > Gap(old(Offset()), size, additional) + size + additional ==> ok && |bytes| == old(|bytes|)
      ensures !ok ==> Data() == old(Data())
      ensures |bytes| >= old(|bytes|)
      ensures |bytes| == Grown(old(|bytes|), old(Offset()) + Gap(old(Offset()), size, additional) + size + additional)
    {
      hide Gap, IsPow2, Zeros;
      if size > minalign {
        minalign := size;
      }
      var alignSize := Gap(Offset(), size, additional);
      ghost var d := Data();
      ghost var need := Offset() + alignSize + size + additional;
      while head <= alignSize + size + additional
        invariant Sound() && Data() == d && minalign == if size > old(minalign) then size else old(minalign)
        invariant CanGrow(old(|bytes|), need) == CanGrow(|bytes|, need) && |bytes| >= old(|bytes|)
        invariant Grown(old(|bytes|), need) == Grown(|bytes|, need)
        invariant old(head) > alignSize + size + additional ==> |bytes| == old(|bytes|) && head == old(head)
        decreases need + 1 - |bytes|
      {
        var oldBufSize := |bytes|;
        ok := Grow();
        if !ok {
          return;
        }
      }
      Pad(alignSize);
      return true;
    }

    /** Prepend*: align, make room, and place. */
    method Prepend(bs: seq<byte>) returns (ok: bool)
      requires Sound() && IsPow2(|bs|)
      modifies `bytes, `head, `minalign
      ensures Sound() && minalign == if |bs| > old(minalign) then |bs| else old(minalign)
      ensures ok ==> Data() == bs + Zeros(Gap(old(Offset()), |bs|, 0)) + old(Data())
      ensures ok ==> Has(Data(), Offset(), bs) && Multiple(Offset(), |bs|)
      ensures !ok ==> Data() == old(Data())
      ensures Extends(Data(), old(Data()))
      ensures Multiple(old(Offset()), |bs|) ==> Data() == if ok then bs + old(Data()) else old(Data())
      ensures Multiple(old(Offset()), |bs|) && old(head) > |bs| ==> ok && |bytes| == old(|bytes|) && head == old(head) - |bs|
      ensures old(Offset()) + 2 * |bs| < GIB ==> ok
    {
      hide Gap, IsPow2, Multiple, CanGrow, Grown, Zeros, Huge, Extends, Has;
      ghost var d := Data();
      GrowthLimits(|bytes|, |d| + Gap(|d|, |bs|, 0) + |bs|);
      if Multiple(|d|, |bs|) {
        NoGap(bs, d);
      }
      Stays(d);
      ok := Prep(|bs|, 0);
      if ok {
        Place(bs);
        InFront(bs, Gap(|d|, |bs|, 0), d);
        Aligned(|d|, |bs|);
      }
    }

    // -- objects --

    method StartObject(numfields: nat)
      requires Valid() && !nested
      modifies `nested, `vtable, `objectEnd, `building, `fields
      ensures Valid() && nested && building && fields == seq(numfields, _ => None)
      ensures |vtable| == numfields && objectEnd == Offset() && forall i :: 0 <= i < numfields ==> vtable[i] == 0
    {
      hide Known, IsPow2;
      nested := true;
      vtable := seq(numfields, _ => 0);
      objectEnd := Offset();
      building := true;
      fields := seq(numfields, _ => None);
    }

    /** Slot: the value just written is that of slot `slotnum`. */
    method Slot(slotnum: nat, ghost f: Field)
      requires Valid() && building && slotnum < |vtable|
      requires objectEnd < Offset() && FieldAt(Data(), Offset(), f) && Width(f) <= minalign
      modifies `vtable, `fields
      ensures Valid() && fields == old(fields)[slotnum := Some(f)] && |vtable| == old(|vtable|)
    {
      vtable := vtable[slotnum := Offset()];
      fields := fields[slotnum := Some(f)];
    }

    /** What an aligned write in front keeps. */
    ghost method Keep(d: seq<byte>, m: nat)
      requires Sound() && Extends(Data(), d) && m <= minalign
      requires Known(d, m, vtables, layouts, objects, sharedStrings)
      requires building ==> nested && InProgress(d, objectEnd, vtable, fields, m)
      ensures Valid()
    {
      KnownExtends(Data(), d, m, minalign, vtables, layouts, objects, sharedStrings);
      if building {
        InProgressExtends(Data(), d, objectEnd, vtable, fields, m, minalign);
      }
    }

    /** Prepend{Uint,Int}{8,16,32,64}Slot: a value equal to the default is not stored - and leaves
        the slot as it was. */
    method PrependSlot(slotnum: nat, x: nat, default: nat, w: nat) returns (ok: bool)
      requires Valid() && building && slotnum < |vtable| && IsWidth(w)
      modifies `bytes, `head, `minalign, `vtable, `fields
      ensures Sound() && Extends(Data(), old(Data()))
      ensures ok ==> Valid() && |vtable| == old(|vtable|)
      ensures ok ==> fields == if x == default then old(fields) else old(fields)[slotnum := Some(Scalar(Put(x, w)))]
      ensures x == default ==> Data() == old(Data())
      ensures ok && x != default ==> Offset() == old(Offset()) + Gap(old(Offset()), w, 0) + w
      ensures ok && x != default ==> forall i :: 0 <= i < w ==> Data()[i] == x / Bytes.Range(i) % 256
      ensures x == default || old(Offset()) + 2 * w < GIB ==> ok
    {
      if x != default {
        ok := PrependScalar(slotnum, Put(x, w));
        if ok {
          LeadingBytes(Data(), x, w);
        }
      } else {
        Stays(Data());
        ok := true;
      }
    }

    method PrependScalar(slotnum: nat, bs: seq<byte>) returns (ok: bool)
      requires Valid() && building && slotnum < |vtable| && IsWidth(|bs|)
      modifies `bytes, `head, `minalign, `vtable, `fields
      ensures Sound() && Extends(Data(), old(Data()))
      ensures ok ==> Valid() && |vtable| == old(|vtable|) && fields == old(fields)[slotnum := Some(Scalar(bs))]
      ensures ok ==> Offset() == old(Offset()) + Gap(old(Offset()), |bs|, 0) + |bs| && Has(Data(), Offset(), bs)
      ensures old(Offset()) + 2 * |bs| < GIB ==> ok
    {
      hide Known, Gap, IsPow2, Extends, Zeros, Multiple, SlotSet, FieldAt, Has;
      ghost var d, m := Data(), minalign;
      WidthPow2(|bs|);
      ok := PrependSized(bs);
      if ok {
        ScalarPlaced(Data(), Offset(), bs);
        Keep(d, m);
        Slot(slotnum, Scalar(bs));
      }
    }

    /** Prepend, for what it leaves behind. */
    method PrependSized(bs: seq<byte>) returns (ok: bool)
      requires Sound() && IsPow2(|bs|)
      modifies `bytes, `head, `minalign
      ensures Sound() && minalign == if |bs| > old(minalign) then |bs| else old(minalign)
      ensures ok ==> Has(Data(), Offset(), bs) && Multiple(Offset(), |bs|)
      ensures ok ==> Offset() == old(Offset()) + Gap(old(Offset()), |bs|, 0) + |bs|
      ensures Extends(Data(), old(Data()))
      ensures old(Offset()) + 2 * |bs| < GIB ==> ok
    {
      hide Gap, IsPow2, Extends, Multiple, Has;
      ok := Prepend(bs);
    }

    /** The Prep that precedes an offset. */
    method PrepOffset() returns (ok: bool)
      requires Sound()
      modifies `bytes, `head, `minalign
      ensures Sound() && minalign == if 4 > old(minalign) then 4 else old(minalign)
      ensures Extends(Data(), old(Data())) && Offset() <= old(Offset()) + 3
      ensures ok ==> Data() == Zeros(Gap(old(Offset()), 4, 0)) + old(Data()) && head > 4 && Multiple(Offset() + 4, 4)
      ensures old(head) > Gap(old(Offset()), 4, 0) + 4 ==> ok && |bytes| == old(|bytes|)
      ensures Multiple(old(Offset()), 4) && old(head) > 4 ==> ok && |bytes| == old(|bytes|) && head == old(head)
      ensures old(Offset()) + 8 < GIB ==> ok
    {
      hide IsPow2, Multiple, CanGrow, Gap, Grown, Huge, Extends;
      ghost var d := Data();
      if Multiple(|d|, 4) {
        AlreadyAligned(|d|, 4);
      }
      GrowthLimits(|bytes|, |d| + Gap(|d|, 4, 0) + 4);
      Stays(d);
      WidthPow2(4);
      ok := Prep(4, 0);
      PrependExtends(Zeros(Gap(|d|, 4, 0)), d);
      Aligned(|d|, 4);
    }

    /** PrependUOffsetT: a reference to something written before, as the distance to it. */
    method PrependUOffsetT(target: nat) returns (ok: bool)
      requires Sound() && 0 < target <= Offset()
      modifies `bytes, `head, `minalign
      ensures Sound() && minalign == if 4 > old(minalign) then 4 else old(minalign)
      ensures ok ==> FieldAt(Data(), Offset(), Ref(target)) && Offset() == old(Offset()) + Gap(old(Offset()), 4, 0) + 4
      ensures ok ==> 4 <= Offset() && Data()[4..] == Zeros(Gap(old(Offset()), 4, 0)) + old(Data())
      ensures Extends(Data(), old(Data()))
      ensures old(head) > Gap(old(Offset()), 4, 0) + 4 ==> ok && |bytes| == old(|bytes|)
      ensures Multiple(old(Offset()), 4) && old(head) > 4 ==> ok && |bytes| == old(|bytes|) && head == old(head) - 4
      ensures old(Offset()) + 8 < GIB ==> ok
    {
      hide Gap, IsPow2;
      ghost var d := Data();
      ok := PrepOffset();
      if ok {
        ghost var d1 := Data();
        var off2 := Offset() - target + 4;
        Place(Put(off2, 4));
        PrependExtends(Put(off2, 4), d1);
        ExtendsTransitive(Data(), d1, d);
        RefPlaced(Data(), Offset(), off2, target);
      }
    }

    /** PrependUOffsetTSlot. */
    method PrependRefSlot(slotnum: nat, target: nat, default: nat) returns (ok: bool)
      requires Valid() && building && slotnum < |vtable| && (target == default || 0 < target <= Offset())
      modifies `bytes, `head, `minalign, `vtable, `fields
      ensures Sound() && Extends(Data(), old(Data()))
      ensures ok ==> Valid() && |vtable| == old(|vtable|)
      ensures ok ==> fields == if target == default then old(fields) else old(fields)[slotnum := Some(Ref(target))]
      ensures target == default ==> Data() == old(Data())
      ensures ok && target != default ==> Offset() == old(Offset()) + Gap(old(Offset()), 4, 0) + 4
      ensures target == default || old(Offset()) + 8 < GIB ==> ok
    {
      ghost var d, m := Data(), minalign;
      Stays(d);
      if target == default {
        return true;
      }
      ok := PrependUOffsetT(target);
      if ok {
        Keep(d, m);
        Slot(slotnum, Ref(target));
      }
    }

    /** One round of the search of WriteVtable: compare with the written vtable at `vt2Offset`. */
    method SameLayout(at: nat, vt2Offset: nat, ghost es: seq<nat>) returns (equal: bool)
      requires Sound() && VtableAt(Data(), vt2Offset, es) && vt2Offset < at < TWO31
      requires forall i :: 0 <= i < |vtable| ==> vtable[i] < at
      ensures equal == Fits(es, vtable, at)
    {
      VtableSlice(bytes, head, vt2Offset, es);
      EntriesBounded(Data(), vt2Offset, es);
      var vt2Start := |bytes| - vt2Offset;
      var vt2Len := Get(bytes[vt2Start..vt2Start + 2]);
      var vt2End := vt2Start + vt2Len;
      var vt2 := bytes[vt2Start + T.METADATA..vt2End];
      equal := VtableEqual(vtable, at, vt2);
      SharingExact(es, vt2Offset, vtable, at);
    }

    /** Before its vtable is known, an object is its data with the placeholder in front. */
    ghost predicate Unsealed(at: nat, rest: seq<byte>)
      reads this
    {
      && Sound() && Offset() == at && |Data()| >= 4 && Data()[4..] == rest && minalign >= 4
      && Known(rest, minalign, vtables, layouts, objects, sharedStrings)
      && (forall i :: 0 <= i < |vtable| ==> vtable[i] < at)
    }

    lemma WrittenBefore(at: nat, rest: seq<byte>, i: nat)
      requires Unsealed(at, rest) && i < |vtables|
      ensures vtables[i] in layouts && VtableAt(Data(), vtables[i], layouts[vtables[i]]) && 0 < vtables[i] < at < TWO31
    {
      PrependExtends(Data()[..4], rest);
      assert Data() == Data()[..4] + rest;
      VtableExtends(Data(), rest, vtables[i], layouts[vtables[i]]);
    }

    /** The search of WriteVtable, latest vtables first. */
    method FindVtable(at: nat, ghost rest: seq<byte>) returns (existing: nat)
      requires Unsealed(at, rest)
      ensures existing != 0 ==> existing in layouts && Fits(layouts[existing], vtable, at)
      ensures existing != 0 <==> HasLayout(vtables, layouts, vtable, at)
    {
      hide VtableAt, Known, Fits, IsPow2, Extends;
      var i := |vtables| - 1;
      while i >= 0
        invariant -1 <= i < |vtables|
        invariant forall j :: i < j < |vtables| ==> vtables[j] in layouts && !Fits(layouts[vtables[j]], vtable, at)
      {
        WrittenBefore(at, rest, i);
        ghost var es := layouts[vtables[i]];
        var equal := SameLayout(at, vtables[i], es);
        if equal {
          return vtables[i];
        }
        i := i - 1;
      }
      return 0;
    }

    /** Entry `i` of a new vtable, in front of the entries after it. */
    method WriteEntry(at: nat, i: nat, ghost es: seq<nat>, ghost d: seq<byte>) returns (ok: bool)
      requires Sound() && Multiple(Offset(), 2) && minalign >= 4 && i < |vtable| == |es| && vtable[i] < at
      requires es[i] == U16(EntryOf(vtable[i], at))
      requires Data() == PutAll(es[i + 1..], 2) + d
      modifies `bytes, `head, `minalign
      ensures Sound() && minalign == old(minalign)
      ensures Data() == (if ok then PutAll(es[i..], 2) + d else old(Data())) && Multiple(Offset(), 2)
      ensures old(Offset()) + 4 < GIB ==> ok
    {
      var off := if vtable[i] != 0 then at - vtable[i] else 0;
      ok := PrependVOffsetT(U16(off));
      PutAllFront(es, 2, i, d);
    }

    /** The entries of a new vtable, last entry first. */
    method WriteEntries(at: nat) returns (ok: bool)
      requires Sound() && Offset() == at && Multiple(at, 2) && minalign >= 4
      requires forall i :: 0 <= i < |vtable| ==> vtable[i] < at
      modifies `bytes, `head, `minalign
      ensures Sound() && minalign == old(minalign)
      ensures ok ==> Data() == PutAll(Entries(vtable, at), 2) + old(Data())
      ensures Extends(Data(), old(Data())) && Multiple(Offset(), 2)
      ensures at + 2 * |vtable| + 2 < GIB ==> ok
    {
      ghost var d, es := Data(), Entries(vtable, at);
      var i := |vtable| - 1;
      assert es[|vtable|..] == [] && PutAll([], 2) + d == d;
      ok := true;
      while i >= 0
        invariant -1 <= i < |vtable| && Sound() && minalign == old(minalign) && ok
        invariant Data() == PutAll(es[i + 1..], 2) + d && Multiple(Offset(), 2)
      {
        SpanTimes(2, |vtable| - 1 - i);
        ok := WriteEntry(at, i, es, d);
        if !ok {
          PrependExtends(PutAll(es[i + 1..], 2), d);
          return;
        }
        i := i - 1;
      }
      assert es[0..] == es;
      PrependExtends(PutAll(es, 2), d);
    }

    /** The two sizes in front of the entries. */
    method WriteSizes(objectSize: nat) returns (ok: bool)
      requires Sound() && Multiple(Offset(), 2) && minalign >= 4
      modifies `bytes, `head, `minalign
      ensures Sound() && minalign == old(minalign)
      ensures ok ==> Data() == Put(4 + 2 * |vtable|, 2) + (Put(U16(objectSize), 2) + old(Data()))
      ensures Extends(Data(), old(Data()))
      ensures old(Offset()) + 6 < GIB ==> ok
    {
      hide Multiple, IsPow2, Extends, Put;
      ghost var d := Data();
      Stays(d);
      ok := PrependVOffsetT(U16(objectSize));
      if ok {
        ghost var d1 := Data();
        var vBytes := (|vtable| + 2) * 2;
        ok := PrependVOffsetT(vBytes);
        ExtendsTransitive(Data(), d1, d);
      }
    }

    /** The part of WriteVtable that writes a new vtable. */
    method WriteLayout(at: nat) returns (ok: bool)
      requires Sound() && Offset() == at && Multiple(at, 2) && minalign >= 4 && objectEnd <= at
      requires |vtable| <= MAX_FIELDS && forall i :: 0 <= i < |vtable| ==> vtable[i] < at
      modifies `bytes, `head, `minalign
      ensures Sound() && minalign == old(minalign)
      ensures ok ==> Data() == VtableBytes(U16(at - objectEnd), Entries(vtable, at)) + old(Data())
      ensures Extends(Data(), old(Data()))
      ensures at + 2 * |vtable| + 8 < GIB ==> ok
    {
      hide PutAll, Extends, IsPow2;
      ghost var d, es := Data(), Entries(vtable, at);
      ok := WriteEntries(at);
      if ok {
        ghost var d1 := Data();
        ok := WriteSizes(at - objectEnd);
        ExtendsTransitive(Data(), d1, d);
        VtableFront(U16(at - objectEnd), es, d);
      }
    }

    /** PrependVOffsetT at an even offset needs no padding. */
    method PrependVOffsetT(x: nat) returns (ok: bool)
      requires Sound() && Multiple(Offset(), 2) && minalign >= 2
      modifies `bytes, `head, `minalign
      ensures Sound() && minalign == old(minalign)
      ensures Data() == if ok then Put(x, 2) + old(Data()) else old(Data())
      ensures Extends(Data(), old(Data())) && Multiple(Offset(), 2)
      ensures old(Offset()) + 4 < GIB ==> ok
    {
      WidthPow2(2);
      ok := Prepend(Put(x, 2));
    }

    method TrimVtable()
      modifies `vtable
      ensures vtable == Trim(old(vtable))
    {
      var i := |vtable| - 1;
      while i >= 0 && vtable[i] == 0
        invariant -1 <= i < |vtable|
        invariant Trim(vtable[..i + 1]) == Trim(vtable)
      {
        assert vtable[..i + 1][..i] == vtable[..i];
        i := i - 1;
      }
      vtable := vtable[..i + 1];
      assert old(vtable)[..|old(vtable)|] == old(vtable);
    }

    /** PlaceSOffsetT. */
    method PlaceSOffset(x: int)
      requires Sound() && 4 <= head
      modifies `bytes, `head
      ensures Sound() && Offset() == old(Offset()) + 4 && Data()[4..] == old(Data()) && Extends(Data(), old(Data()))
    {
      ghost var d := Data();
      Place(PutSigned(x));
      PrependExtends(PutSigned(x), d);
    }

    /** PrependSOffsetT(0), the placeholder that WriteVtable fills in later. */
    method ReserveSOffset() returns (ok: bool, ghost rest: seq<byte>)
      requires Sound()
      modifies `bytes, `head, `minalign
      ensures Sound() && Extends(Data(), old(Data())) && minalign >= old(minalign) && minalign >= 4
      ensures ok ==> Offset() == old(Offset()) + Gap(old(Offset()), 4, 0) + 4 && Multiple(Offset(), 4)
      ensures ok ==> Data()[4..] == rest == Zeros(Gap(old(Offset()), 4, 0)) + old(Data()) && Extends(rest, old(Data()))
      ensures old(Offset()) + 8 < GIB ==> ok
    {
      hide Multiple, IsPow2, Gap, Extends;
      ghost var d := Data();
      ok := PrepOffset();
      rest := Data();
      if ok {
        PlaceSOffset(Offset() + 4);
        ExtendsTransitive(Data(), rest, d);
      }
    }

    /** WriteSOffsetT over the placeholder `s0` of the object at `at`. */
    method PatchSOffset(at: nat, p: seq<byte>, ghost front: seq<byte>, ghost s0: seq<byte>, ghost rest: seq<byte>)
      requires Sound() && |s0| == |p| == 4 && at == 4 + |rest| && Data() == front + (s0 + rest)
      modifies `bytes
      ensures Sound() && Data() == front + (p + rest)
    {
      var objectStart := |bytes| - at;
      assert bytes[objectStart..] == s0 + rest by {
        assert bytes[objectStart..] == Data()[|front|..];
      }
      bytes := bytes[..objectStart] + p + bytes[objectStart + 4..];
      assert Data() == front + (p + rest);
    }

    /** The vtable of layout `es` at `vt` becomes that of the object at `at`. */
    ghost predicate Sealed(at: nat, rest: seq<byte>, vt: nat, es: seq<nat>)
      reads this
    {
      && Sound() && Extends(Data(), rest) && Offset() >= at
      && Known(Data(), minalign, vtables, layouts, objects, sharedStrings)
      && HasInt(Data(), at, vt - at) && VtableAt(Data(), vt, es)
    }

    /** WriteVtable: a duplicate vtable was found. */
    method SealShared(at: nat, existing: nat, ghost rest: seq<byte>)
      requires Unsealed(at, rest) && existing in layouts
      modifies `bytes, `head
      ensures Sealed(at, rest, existing, layouts[existing]) && Offset() == at
    {
      hide Known, VtableAt, HasInt, Extends, PutSigned, IsPow2;
      SharedInPlace(at, existing, rest, minalign, vtables, layouts, objects, sharedStrings);
      ghost var s0 := Data()[..4];
      assert Data() == [] + (s0 + rest);
      head := |bytes| - at;
      ghost var p := PutSigned(existing - at);
      PatchSOffset(at, PutSigned(existing - at), [], s0, rest);
      assert [] + (p + rest) == p + rest;
    }

    /** WriteVtable: no duplicate was found. */
    method SealNew(at: nat, ghost rest: seq<byte>) returns (ok: bool)
      requires Unsealed(at, rest) && Multiple(at, 2) && objectEnd <= at && |vtable| <= MAX_FIELDS
      modifies `bytes, `head, `minalign, `vtables, `layouts
      ensures Sound() && minalign == old(minalign) && Extends(Data(), rest) && Offset() >= at
      ensures ok ==> Sealed(at, rest, Offset(), Entries(vtable, at))
      ensures ok ==> vtables == old(vtables) + [Offset()] && Offset() == at + 4 + 2 * |vtable|
      ensures ok ==> Data() == NewObject(at, objectEnd, vtable, rest)
      ensures at + 2 * |vtable| + 8 < GIB ==> ok
    {
      hide Known, VtableBytes, IsPow2, VtableAt, HasInt;
      ghost var d, s0, es := Data(), Data()[..4], Entries(vtable, at);
      assert d == s0 + rest;
      PrependExtends(s0, rest);
      ok := WriteLayout(at);
      ExtendsTransitive(Data(), d, rest);
      if ok {
        FillIn(at, s0, rest, U16(at - objectEnd), es);
      }
    }

    /** The last step of SealNew: fill in the placeholder and remember the vtable. */
    method FillIn(at: nat, ghost s0: seq<byte>, ghost rest: seq<byte>, ghost size: nat, ghost es: seq<nat>)
      requires Sound() && Data() == VtableBytes(size, es) + (s0 + rest) && |s0| == 4 && at == 4 + |rest|
      requires Known(rest, minalign, vtables, layouts, objects, sharedStrings)
      requires |es| <= MAX_FIELDS && forall i :: 0 <= i < |es| ==> es[i] < 0x1_0000 && es[i] < at
      modifies `bytes, `vtables, `layouts
      ensures Sound() && Sealed(at, rest, Offset(), es) && Offset() == old(Offset()) && vtables == old(vtables) + [Offset()]
      ensures Data() == VtableBytes(size, es) + (PutSigned(Offset() - at) + rest)
    {
      hide Known, VtableBytes, PutSigned, Extends, VtableAt, HasInt;
      ghost var p := PutSigned(Offset() - at);
      PatchSOffset(at, PutSigned(Offset() - at), VtableBytes(size, es), s0, rest);
      SOffsetInPlace(VtableBytes(size, es), Offset() - at, rest);
      VtableInPlace(size, es, p, rest, minalign, vtables, layouts, objects, sharedStrings);
      layouts := layouts[Offset() := es];
      vtables := vtables + [Offset()];
    }


    /** WriteVtable after trimming: refer to an equal vtable if there is one, else write one. */
    method Seal(at: nat, ghost rest: seq<byte>) returns (ok: bool, ghost vt: nat, ghost es: seq<nat>)
      requires Unsealed(at, rest) && Multiple(at, 2) && objectEnd <= at && |vtable| <= MAX_FIELDS
      modifies `bytes, `head, `minalign, `vtables, `layouts
      ensures Sound() && minalign == old(minalign) && Extends(Data(), rest) && Offset() >= at
      ensures ok ==> Sealed(at, rest, vt, es)
      ensures ok ==> Chosen(old(vtables), vtables, HasLayout(old(vtables), old(layouts), vtable, at), at, Offset(), |vtable|)
      ensures ok ==> LayoutFor(es, vtable, at)
      ensures ok && !HasLayout(old(vtables), old(layouts), vtable, at) ==> Data() == NewObject(at, objectEnd, vtable, rest)
      ensures at + 2 * |vtable| + 8 < GIB ==> ok
    {
      hide Known, VtableAt, HasInt, Fits;
      var existing := FindVtable(at, rest);
      if existing == 0 {
        vt, es := at + 4 + 2 * |vtable|, Entries(vtable, at);
        ok := SealNew(at, rest);
      } else {
        vt, es := existing, layouts[existing];
        SealShared(at, existing, rest);
        ok := true;
      }
    }

    /** The finished object joins what is known, if it can be read back. */
    ghost method Record(at: nat, rest: seq<byte>, vt: nat, es: seq<nat>, offs: seq<nat>)
      requires Sealed(at, rest, vt, es) && InProgress(rest, objectEnd, offs, fields, minalign) && minalign >= 4
      requires |rest| < at && LayoutFor(es, Trim(offs), at)
      modifies `objects
      ensures Recorded(old(objects), objects, at, fields, Near(Trim(offs), at))
      ensures LeadsToSlots(Data(), at, Trim(offs)) <==> Near(Trim(offs), at)
      ensures Known(Data(), minalign, vtables, layouts, objects, sharedStrings)
    {
      hide Near, InProgress, VtableAt, HasInt, Fits, LeadsToSlots;
      FitsIffNear(Data(), vt, es, Trim(offs), at);
      ReadsRightIffNear(Data(), vt, es, Trim(offs), at);
      if Near(Trim(offs), at) {
        ObjectFinished(Data(), rest, objectEnd, offs, fields, minalign, at, vt, es);
        objects := objects[at := Object(vt, es, fields)];
      }
    }

    /** WriteVtable up to the search: the placeholder is written and the vtable trimmed. */
    method Begin() returns (ok: bool, at: nat, ghost rest: seq<byte>)
      requires Valid() && building && |Trim(vtable)| <= MAX_FIELDS
      modifies `bytes, `head, `minalign, `vtable
      ensures Sound() && Extends(Data(), old(Data())) && minalign >= old(minalign)
      ensures ok ==> Unsealed(at, rest) && Multiple(at, 2) && objectEnd <= |rest| < at && Extends(rest, old(Data()))
      ensures ok ==> InProgress(rest, objectEnd, old(vtable), fields, minalign) && vtable == Trim(old(vtable))
      ensures ok ==> |vtable| <= MAX_FIELDS && minalign >= 4
      ensures ok ==> at == old(Offset()) + Gap(old(Offset()), 4, 0) + 4 && rest == Zeros(Gap(old(Offset()), 4, 0)) + old(Data())
      ensures old(Offset()) + 8 < GIB ==> ok
    {
      hide Known, InProgress;
      ghost var d, m, offs := Data(), minalign, vtable;
      ok, rest := ReserveSOffset();
      at := Offset();
      if ok {
        KnownExtends(rest, d, m, minalign, vtables, layouts, objects, sharedStrings);
        InProgressExtends(rest, d, objectEnd, offs, fields, m, minalign);
        SlotsInside(rest, objectEnd, offs, fields, minalign, Trim(offs));
        FourTwo(at);
        TrimVtable();
      }
    }

    /** WriteVtable: seal the object with a reference to a vtable of its layout - an earlier one if
        there is one, else a new one. The object can be read back if and only if its fields are near
        its start. */
    method WriteVtable() returns (ok: bool, at: nat)
      requires Valid() && building && |Trim(vtable)| <= MAX_FIELDS
      modifies `bytes, `head, `minalign, `vtable, `vtables, `layouts, `objects
      ensures Sound() && Extends(Data(), old(Data())) && minalign >= old(minalign)
      ensures ok ==> Known(Data(), minalign, vtables, layouts, objects, sharedStrings)
      ensures ok ==> at == old(Offset()) + Gap(old(Offset()), 4, 0) + 4 <= Offset() && vtable == []
      ensures ok && at - objectEnd <= 0x1_0000 ==> Near(Trim(old(vtable)), at)
      ensures ok ==> Recorded(old(objects), objects, at, fields, Near(Trim(old(vtable)), at))
      ensures ok ==> (LeadsToSlots(Data(), at, Trim(old(vtable))) <==> Near(Trim(old(vtable)), at))
      ensures ok ==> var t := Trim(old(vtable));
                     Chosen(old(vtables), vtables, HasLayout(old(vtables), old(layouts), t, at), at, Offset(), |t|)
      ensures ok && !HasLayout(old(vtables), old(layouts), Trim(old(vtable)), at) ==>
                Data() == NewObject(at, old(objectEnd), Trim(old(vtable)), Zeros(Gap(old(Offset()), 4, 0)) + old(Data()))
      ensures old(Offset()) + 2 * |old(vtable)| + 16 < GIB ==> ok
    {
      hide Known, InProgress, Near, HasLayout, LayoutFor, Unsealed, Sealed, Recorded, Chosen, IsPow2, Trim, Extends, LeadsToSlots;
      ghost var rest, vt, es;
      ghost var d, offs := Data(), vtable;
      ok, at, rest := Begin();
      if !ok {
        return;
      }
      SmallNear(rest, objectEnd, offs, fields, minalign, at);
      ok, vt, es := Seal(at, rest);
      ExtendsTransitive(Data(), rest, d);
      if ok {
        Record(at, rest, vt, es, offs);
        vtable := [];
      }
    }

    method EndObject() returns (ok: bool, at: nat)
      requires Valid() && building && |Trim(vtable)| <= MAX_FIELDS
      modifies this
      ensures Sound() && Extends(Data(), old(Data())) && minalign >= old(minalign)
      ensures ok ==> Valid() && !nested && !building && at == old(Offset()) + Gap(old(Offset()), 4, 0) + 4 <= Offset()
      ensures ok ==> sharedStrings == old(sharedStrings) && finished == old(finished)
      ensures ok && at - old(objectEnd) <= 0x1_0000 ==> Near(Trim(old(vtable)), at)
      ensures ok ==> Recorded(old(objects), objects, at, old(fields), Near(Trim(old(vtable)), at))
      ensures ok ==> (LeadsToSlots(Data(), at, Trim(old(vtable))) <==> Near(Trim(old(vtable)), at))
      ensures ok ==> var t := Trim(old(vtable));
                     Chosen(old(vtables), vtables, HasLayout(old(vtables), old(layouts), t, at), at, Offset(), |t|)
      ensures ok && !HasLayout(old(vtables), old(layouts), Trim(old(vtable)), at) ==>
                Data() == NewObject(at, old(objectEnd), Trim(old(vtable)), Zeros(Gap(old(Offset()), 4, 0)) + old(Data()))
      ensures old(Offset()) + 2 * |old(vtable)| + 16 < GIB ==> ok
    {
      hide Known, Near, HasLayout, Recorded, Chosen, LeadsToSlots, Gap;
      ok, at := WriteVtable();
      if ok {
        nested, building := false, false;
      }
    }

    // -- vectors and strings --

    /** Prep, for what it leaves behind. */
    method PrepFor(size: nat, additional: nat) returns (ok: bool)
      requires Sound() && IsPow2(size)
      modifies `bytes, `head, `minalign
      ensures Sound() && minalign == if size > old(minalign) then size else old(minalign)
      ensures Extends(Data(), old(Data())) && Offset() < old(Offset()) + size
      ensures ok ==> Multiple(Offset() + additional, size) && head > size + additional
      ensures Multiple(old(Offset()) + additional, size) ==> Data() == old(Data())
      ensures |bytes| >= old(|bytes|)
      ensures |bytes| == Grown(old(|bytes|), old(Offset()) + Gap(old(Offset()), size, additional) + size + additional)
      ensures ok ==> Offset() == old(Offset()) + Gap(old(Offset()), size, additional)
      ensures old(Offset()) + 2 * size + additional < GIB ==> ok
    {
      hide Multiple, IsPow2, Gap;
      ghost var d := Data();
      GapAligns(|d|, size, additional);
      if Multiple(|d| + additional, size) {
        GapLeast(|d|, size, additional, 0);
      }
      GrowthLimits(|bytes|, |d| + Gap(|d|, size, additional) + size + additional);
      Stays(d);
      ok := Prep(size, additional);
      PrependExtends(Zeros(Gap(|d|, size, additional)), d);
    }

    /** The two Preps of StartVector. */
    method Reserve(size: nat, alignment: nat) returns (ok: bool)
      requires Sound() && IsPow2(alignment)
      modifies `bytes, `head, `minalign
      ensures Sound() && Extends(Data(), old(Data()))
      ensures minalign >= old(minalign) && minalign >= 4 && (ok ==> minalign >= alignment)
      ensures ok ==> Multiple(Offset() + size, alignment) && Multiple(Offset() + size, 4)
      ensures ok ==> head > alignment + size && head > 4 + size
      ensures old(Offset()) + 2 * alignment + size + 12 < GIB ==> ok
    {
      hide IsPow2, Extends, Multiple, Grown, Gap;
      ghost var d := Data();
      WidthPow2(4);
      ok := PrepFor(4, size);
      if ok {
        ghost var d1 := Data();
        SmallDivides(|d1| + size, alignment);
        ok := PrepFor(alignment, size);
        ExtendsTransitive(Data(), d1, d);
        if ok {
          ExtendsLonger(Data(), d1);
          StillFour(|d1| + size, |Data()| + size, alignment);
        }
      }
    }

    /** StartVector: align, and reserve room for the elements and their count. */
    method StartVector(elemSize: nat, numElems: nat, alignment: nat) returns (ok: bool)
      requires Valid() && !nested && IsPow2(alignment)
      modifies `bytes, `head, `minalign, `nested
      ensures Sound() && Extends(Data(), old(Data())) && nested
      ensures ok ==> Known(Data(), minalign, vtables, layouts, objects, sharedStrings) && minalign >= 4 && minalign >= alignment
      ensures ok ==> Multiple(Offset() + Span(elemSize, numElems), alignment) && Multiple(Offset() + Span(elemSize, numElems), 4)
      ensures ok ==> head > alignment + Span(elemSize, numElems) && head > 4 + Span(elemSize, numElems)
      ensures old(Offset()) + 2 * alignment + Span(elemSize, numElems) + 12 < GIB ==> ok
    {
      hide Known, Extends;
      ghost var d, m := Data(), minalign;
      nested := true;
      SpanTimes(elemSize, numElems);
      ok := Reserve(elemSize * numElems, alignment);
      if ok {
        KnownExtends(Data(), d, m, minalign, vtables, layouts, objects, sharedStrings);
      }
    }

    /** EndVector: the count, for which there is room. */
    method EndVector(n: nat) returns (off: nat)
      requires Sound() && nested && 4 <= head && n < TWO32
      modifies `bytes, `head, `nested
      ensures Sound() && !nested && off == Offset() == old(Offset()) + 4
      ensures Extends(Data(), old(Data())) && HasUint(Data(), off, 4, n)
    {
      ghost var d := Data();
      Place(Put(n, 4));
      nested := false;
      PrependExtends(Put(n, 4), d);
      Ranges();
      HasIsUint(Data(), Offset(), 4, n);
      return Offset();
    }

    /** The loop of CreateVectorOfTables, last element first: room has been made, so nothing grows. */
    method PlaceRefs(targets: seq<nat>)
      requires Sound() && Multiple(Offset(), 4) && head > 4 + 4 * |targets| && minalign >= 4
      requires forall i :: 0 <= i < |targets| ==> 0 < targets[i] <= Offset()
      modifies `bytes, `head, `minalign
      ensures Sound() && minalign == old(minalign) && Extends(Data(), old(Data()))
      ensures head > 4 && Offset() == old(Offset()) + 4 * |targets| && RefsPlaced(Data(), Offset(), targets, 0)
    {
      hide FieldAt, IsPow2, Extends;
      ghost var d, top := Data(), Offset() + 4 * |targets|;
      var i := |targets| - 1;
      Stays(d);
      while i >= 0
        invariant -1 <= i < |targets| && Sound() && minalign == old(minalign) && Extends(Data(), d)
        invariant Offset() == top - 4 * (i + 1) && head > 4 + 4 * (i + 1) && Multiple(Offset(), 4)
        invariant RefsPlaced(Data(), top, targets, i + 1)
      {
        ghost var d1 := Data();
        var ok := PrependUOffsetT(targets[i]);
        ExtendsTransitive(Data(), d1, d);
        OneMoreRef(Data(), d1, top, targets, i);
        i := i - 1;
      }
    }

    /** The elements of CreateVectorOfTables and their count. */
    method PlaceRefVector(targets: seq<nat>) returns (off: nat)
      requires Sound() && nested && Multiple(Offset() + 4 * |targets|, 4) && head > 4 + 4 * |targets| && minalign >= 4
      requires |targets| < GIB && forall i :: 0 <= i < |targets| ==> 0 < targets[i] <= Offset()
      modifies `bytes, `head, `minalign, `nested
      ensures Sound() && minalign == old(minalign) && Extends(Data(), old(Data())) && !nested
      ensures RefsAt(Data(), off, targets) && off == Offset() && Multiple(off, 4)
    {
      hide IsPow2, Extends, RefsAt, RefsPlaced, Multiple;
      ghost var d := Data();
      Times(|targets|, 4);
      Difference(Offset() + 4 * |targets|, 4 * |targets|, 4);
      PlusFour(Offset() + 4 * |targets|);
      PlaceRefs(targets);
      ghost var d1 := Data();
      off := EndVector(|targets|);
      RefsBehindCount(Data(), d1, off, targets);
      ExtendsTransitive(Data(), d1, d);
    }

    method CreateVectorOfTables(offsets: seq<nat>) returns (ok: bool, off: nat)
      requires Valid() && !nested && |offsets| < GIB
      requires forall i :: 0 <= i < |offsets| ==> 0 < offsets[i] <= Offset()
      modifies `bytes, `head, `minalign, `nested
      ensures Sound() && Extends(Data(), old(Data()))
      ensures ok ==> Valid() && !nested && RefsAt(Data(), off, offsets) && off == Offset() && Multiple(off, 4)
      ensures old(Offset()) + 4 * |offsets| + 20 < GIB ==> ok
    {
      hide Known, IsPow2, Extends, RefsAt, Multiple;
      ghost var d := Data();
      WidthPow2(4);
      SpanTimes(4, |offsets|);
      ok := StartVector(4, |offsets|, 4);
      off := 0;
      if ok {
        ghost var d1 := Data();
        ExtendsLonger(d1, d);
        off := PlaceRefVector(offsets);
        ExtendsTransitive(Data(), d1, d);
        KnownExtends(Data(), d1, minalign, minalign, vtables, layouts, objects, sharedStrings);
      }
    }

    /** Prepend one of the elements of a vector for which room has been made: nothing grows. */
    method PrependElement(xs: seq<nat>, w: nat, i: nat, ghost d: seq<byte>)
      requires Sound() && IsWidth(w) && w <= minalign && i < |xs| && Multiple(Offset(), w) && head > w
      requires Data() == PutAll(xs[i + 1..], w) + d
      modifies `bytes, `head, `minalign
      ensures Sound() && minalign == old(minalign) && head == old(head) - w && Multiple(Offset(), w)
      ensures Data() == PutAll(xs[i..], w) + d
    {
      hide IsPow2, Multiple, PutAll, Zeros, Gap;
      WidthPow2(w);
      var ok := Prepend(Put(xs[i], w));
      PutAllFront(xs, w, i, d);
    }

    method PrependElements(xs: seq<nat>, w: nat)
      requires Sound() && IsWidth(w) && w <= minalign && Multiple(Offset(), w) && head > 4 + Span(w, |xs|)
      modifies `bytes, `head, `minalign
      ensures Sound() && minalign == old(minalign) && head > 4 && Data() == PutAll(xs, w) + old(Data())
    {
      hide IsPow2, Multiple, PutAll;
      ghost var d := Data();
      var i := |xs| - 1;
      assert xs[|xs|..] == [] && PutAll([], w) + d == d;
      while i >= 0
        invariant -1 <= i < |xs| && Sound() && minalign == old(minalign) && Multiple(Offset(), w)
        invariant head > 4 + Span(w, i + 1) && Data() == PutAll(xs[i + 1..], w) + d
      {
        PrependElement(xs, w, i, d);
        i := i - 1;
      }
      assert xs[0..] == xs;
    }

    /** The elements and their count, once there is room. */
    method PlaceNumbers(xs: seq<nat>, w: nat) returns (off: nat)
      requires Sound() && nested && IsWidth(w) && w <= minalign && Multiple(Offset(), w) && head > 4 + Span(w, |xs|) && |xs| < TWO32
      modifies `bytes, `head, `minalign, `nested
      ensures Sound() && !nested && minalign == old(minalign) && Extends(Data(), old(Data()))
      ensures VectorAt(Data(), off, |xs|, PutAll(xs, w)) && off == Offset() == old(Offset()) + Span(w, |xs|) + 4
    {
      hide IsPow2, Extends, Multiple, PutAll, VectorAt, Span, Has;
      ghost var d := Data();
      PrependElements(xs, w);
      ghost var d1 := Data();
      PrependExtends(PutAll(xs, w), d);
      off := EndVector(|xs|);
      ExtendsTransitive(Data(), d1, d);
      CountInFront(Data(), d1, off, |xs|, PutAll(xs, w));
    }

    /** A vector of `w`-byte numbers, built as the interface asks for it: StartVector, one Prepend for
        each element from the last to the first, EndVector. */
    method BuildVector(xs: seq<nat>, w: nat, alignment: nat) returns (ok: bool, off: nat)
      requires Valid() && !nested && |xs| < TWO32 && IsWidth(w) && IsPow2(alignment) && w <= alignment
      modifies `bytes, `head, `minalign, `nested
      ensures Sound() && Extends(Data(), old(Data()))
      ensures ok ==> Valid() && !nested && off == Offset() && VectorAt(Data(), off, |xs|, PutAll(xs, w))
      ensures ok ==> Multiple(off, 4) && Multiple(off - 4, alignment) && minalign >= alignment
      ensures old(Offset()) + 2 * alignment + Span(w, |xs|) + 12 < GIB ==> ok
    {
      hide Known, IsPow2, Extends, Multiple, PutAll, VectorAt, Span;
      ghost var d := Data();
      off := 0;
      ok := StartVector(w, |xs|, alignment);
      if ok {
        ghost var d1 := Data();
        ElementsFit(|d1|, |xs|, w, alignment);
        off := PlaceNumbers(xs, w);
        ExtendsTransitive(Data(), d1, d);
        PlusFour(|d1| + Span(w, |xs|));
        KnownExtends(Data(), d1, minalign, minalign, vtables, layouts, objects, sharedStrings);
      }
    }

    /** Place data and a tail behind it, once there is room. */
    method PlaceBytes(s: seq<byte>, tail: seq<byte>)
      requires Sound() && |s| + |tail| <= head
      modifies `bytes, `head
      ensures Sound() && Extends(Data(), old(Data())) && Has(Data(), Offset(), s + tail)
      ensures head == old(head) - |s| - |tail| && Offset() == old(Offset()) + |s| + |tail|
    {
      hide IsPow2;
      ghost var d := Data();
      Place(tail);
      Place(s);
      TwoParts(s, tail, d);
    }

    /** The data and their count, once there is room. */
    method PlaceVector(s: seq<byte>, tail: seq<byte>) returns (off: nat)
      requires Sound() && nested && |s| + |tail| + 4 <= head && |s| < TWO32
      modifies `bytes, `head, `nested
      ensures Sound() && !nested && Extends(Data(), old(Data()))
      ensures VectorAt(Data(), off, |s|, s + tail) && off == Offset() == old(Offset()) + |s| + |tail| + 4
    {
      hide IsPow2, Extends, VectorAt, Has;
      ghost var d := Data();
      PlaceBytes(s, tail);
      ghost var d1 := Data();
      off := EndVector(|s|);
      CountInFront(Data(), d1, off, |s|, s + tail);
      ExtendsTransitive(Data(), d1, d);
    }

    /** Align the count of `n` bytes to come, and make room for all of them. */
    method OpenBytes(n: nat) returns (ok: bool)
      requires Valid() && !nested
      modifies `bytes, `head, `minalign, `nested
      ensures Sound() && Extends(Data(), old(Data())) && nested
      ensures ok ==> Known(Data(), minalign, vtables, layouts, objects, sharedStrings) && minalign >= 4
      ensures ok ==> Multiple(Offset() + n, 4) && head > 4 + n
      ensures old(Offset()) + n + 8 < GIB ==> ok
    {
      hide Known, IsPow2, Extends, Multiple;
      ghost var d, m := Data(), minalign;
      nested := true;
      WidthPow2(4);
      ok := PrepFor(4, n);
      KnownExtends(Data(), d, m, minalign, vtables, layouts, objects, sharedStrings);
    }

    /** The common body of CreateString, CreateByteString and CreateByteVector. */
    method WriteBytes(s: seq<byte>, tail: seq<byte>) returns (ok: bool, off: nat)
      requires Valid() && !nested && |s| < TWO32
      modifies `bytes, `head, `minalign, `nested
      ensures Sound() && Extends(Data(), old(Data()))
      ensures ok ==> Valid() && !nested && minalign >= 4
      ensures ok ==> VectorAt(Data(), off, |s|, s + tail) && off == Offset() && Multiple(off, 4)
      ensures old(Offset()) + |s| + |tail| + 8 < GIB ==> ok
    {
      hide Known, IsPow2, Extends, VectorAt, Multiple;
      ghost var d := Data();
      off := 0;
      ok := OpenBytes(|s| + |tail|);
      if ok {
        ghost var d1 := Data();
        off := PlaceVector(s, tail);
        ExtendsTransitive(Data(), d1, d);
        PlusFour(|d1| + |s| + |tail|);
        KnownExtends(Data(), d1, minalign, minalign, vtables, layouts, objects, sharedStrings);
      }
    }

    /** CreateString and CreateByteString: the bytes and a zero that is not counted. */
    method CreateString(s: seq<byte>) returns (ok: bool, off: nat)
      requires Valid() && !nested && |s| < TWO32
      modifies `bytes, `head, `minalign, `nested
      ensures Sound() && Extends(Data(), old(Data()))
      ensures ok ==> Valid() && !nested && VectorAt(Data(), off, |s|, s + [0]) && off == Offset() && Multiple(off, 4)
      ensures old(Offset()) + |s| + 9 < GIB ==> ok
    {
      ok, off := WriteBytes(s, [0]);
    }

    method CreateByteVector(v: seq<byte>) returns (ok: bool, off: nat)
      requires Valid() && !nested && |v| < TWO32
      modifies `bytes, `head, `minalign, `nested
      ensures Sound() && Extends(Data(), old(Data()))
      ensures ok ==> Valid() && !nested && VectorAt(Data(), off, |v|, v) && off == Offset() && Multiple(off, 4)
      ensures old(Offset()) + |v| + 8 < GIB ==> ok
    {
      ok, off := WriteBytes(v, []);
      assert v + [] == v;
    }

    /** CreateSharedString: a string is written once; asked for again, its offset still denotes it. */
    method CreateSharedString(s: seq<byte>) returns (ok: bool, off: nat)
      requires Valid() && !nested && |s| < TWO32
      modifies `bytes, `head, `minalign, `nested, `sharedStrings
      ensures Sound() && Extends(Data(), old(Data()))
      ensures ok ==> Valid() && !nested && VectorAt(Data(), off, |s|, s + [0])
      ensures ok ==> sharedStrings == old(sharedStrings)[s := off]
      ensures s in old(sharedStrings) ==> ok && Data() == old(Data()) && off == old(sharedStrings)[s]
      ensures old(Offset()) + |s| + 9 < GIB ==> ok
    {
      Stays(Data());
      if s in sharedStrings {
        off := sharedStrings[s];
        assert sharedStrings == sharedStrings[s := off];
        return true, off;
      }
      ok, off := CreateString(s);
      if ok {
        sharedStrings := sharedStrings[s := off];
      }
    }

    // -- finishing --

    /** The reference to the root table, with `n` bytes to come. */
    method PlaceRoot(root: nat, n: nat) returns (ok: bool)
      requires Sound() && 0 < root <= Offset() && (n == 4 || n == 8)
      modifies `bytes, `head, `minalign
      ensures Sound() && minalign >= old(minalign) && Extends(Data(), old(Data()))
      ensures ok ==> minalign == if 4 > old(minalign) then 4 else old(minalign)
      ensures ok ==> FieldAt(Data(), Offset(), Ref(root)) && Multiple(Offset() + (n - 4), minalign)
      ensures ok && n == 8 ==> (head < 4 <==> Tight(old(|bytes|), old(Offset()), old(minalign), 8))
      ensures ok && Multiple(old(Offset()) + n, old(minalign)) ==> 4 <= Offset() && Data()[4..] == Zeros(Gap(old(Offset()), 4, 0)) + old(Data())
      ensures old(Offset()) + 2 * old(minalign) + n + 8 < GIB ==> ok
    {
      hide Multiple, Extends, FieldAt, Grown, CanGrow, Gap, IsPow2, Zeros, Tight;
      ghost var d, m := Data(), minalign;
      ghost var len := |bytes|;
      ok := PrepFor(minalign, n);
      if ok {
        ghost var d1 := Data();
        ExtendsLonger(d1, d);
        if n == 8 {
          RoomLeft(len, |d|, m);
        }
        ok := PrependUOffsetT(root);
        ExtendsTransitive(Data(), d1, d);
        if ok {
          RootAligned(|d1|, n, m);
        }
      }
    }

    /** finish. Where the room made is too tight for the size prefix, placing it panics. */
    method FinishRoot(root: nat, sizePrefix: bool) returns (ok: bool)
      requires Sound() && !nested && 0 < root <= Offset()
      modifies `bytes, `head, `minalign, `finished
      ensures Sound() && minalign >= old(minalign) && Extends(Data(), old(Data()))
      ensures ok ==> minalign == if 4 > old(minalign) then 4 else old(minalign)
      ensures ok ==> finished && Multiple(Offset(), minalign)
      ensures ok && !sizePrefix ==> T.RootAs(Data(), 0) == Some(Offset() - root)
      ensures ok && sizePrefix ==>
                T.SizePrefixedRootAs(Data(), 0) == Some(Offset() - root) && T.SizePrefix(Data(), 0) == Some(Offset() - 4)
      ensures var n := if sizePrefix then 8 else 4;
              ok && Multiple(old(Offset()) + n, old(minalign)) ==>
                n <= Offset() && Data()[n..] == Zeros(Gap(old(Offset()), 4, 0)) + old(Data())
      ensures sizePrefix && Tight(old(|bytes|), old(Offset()), old(minalign), 8) ==> !ok
      ensures old(Offset()) + 2 * old(minalign) + 16 < GIB ==>
                ok || (sizePrefix && Tight(old(|bytes|), old(Offset()), old(minalign), 8))
    {
      hide Multiple, Extends, FieldAt, HasUint, Data, IsPow2, T.RootAs, T.SizePrefixedRootAs, T.SizePrefix, Put, Tight, Gap, Zeros;
      ghost var d := Data();
      ok := PlaceRoot(root, if sizePrefix then T.UOFFSET_SIZE + T.PREFIX else T.UOFFSET_SIZE);
      if ok {
        ghost var d1 := Data();
        ghost var n := Offset();
        assert n == |d1| && FieldAt(d1, n, Ref(root));
        if sizePrefix {
          if head < 4 {
            return false;
          }
          PlaceSize();
          ghost var d2 := Data();
          ExtendsTransitive(d2, d1, d);
          FieldExtends(d2, d1, n, Ref(root));
          assert |d2| - 4 == n;
          PrefixedRootReadsBack(d2, root);
          assert d2[8..] == d2[4..][4..] == d1[4..];
        } else {
          RootReadsBack(d1, root);
        }
        finished := true;
      }
    }

    /** PlaceUint32 of the size so far. */
    method PlaceSize()
      requires Sound() && head >= 4
      modifies `bytes, `head
      ensures Sound() && Extends(Data(), old(Data())) && Offset() == old(Offset()) + 4
      ensures HasUint(Data(), Offset(), 4, old(Offset())) && Data()[4..] == old(Data())
    {
      ghost var d := Data();
      Place(Put(Offset(), 4));
      PrependExtends(Put(|d|, 4), d);
      Ranges();
      HasIsUint(Data(), Offset(), 4, |d|);
    }

    /** Place bytes one by one, last byte first. */
    method PlaceEach(bs: seq<byte>)
      requires Sound() && head >= |bs|
      modifies `bytes, `head
      ensures Sound() && Extends(Data(), old(Data())) && Has(Data(), Offset(), bs) && Offset() == old(Offset()) + |bs|
      ensures |bytes| == old(|bytes|)
    {
      hide IsPow2, Has, Extends, Data;
      ghost var d := Data();
      var i := |bs| - 1;
      assert bs[|bs|..] + d == d;
      while i >= 0
        invariant -1 <= i < |bs| && Sound() && head > i && |bytes| == old(|bytes|)
        invariant Data() == bs[i + 1..] + d
      {
        Place([bs[i]]);
        OneMoreByte(bs, i, d);
        i := i - 1;
      }
      assert bs[0..] == bs;
      PrependExtends(bs, d);
    }

    /** The file identifier, aligned for the `rest` bytes of the finish to come. */
    method PlaceIdentifier(fid: seq<byte>, rest: nat) returns (ok: bool)
      requires Sound() && |fid| == 4
      modifies `bytes, `head, `minalign
      ensures Sound() && minalign == old(minalign) && Extends(Data(), old(Data()))
      ensures ok ==> Has(Data(), Offset(), fid) && Multiple(Offset() + rest, minalign)
      ensures var gap := Gap(old(Offset()), minalign, rest + 4);
              var need := old(Offset()) + gap + minalign + rest + 4;
              ok ==> Offset() == old(Offset()) + gap + 4 && |bytes| == Grown(old(|bytes|), need) > need
      ensures old(Offset()) + 2 * minalign + 4 + rest < GIB ==> ok
    {
      hide Multiple, Extends, IsPow2, Has, Gap, Grown, CanGrow;
      ghost var d := Data();
      ok := PrepFor(minalign, rest + 4);
      if ok {
        ghost var d1 := Data();
        PlaceEach(fid);
        ExtendsTransitive(Data(), d1, d);
        assert Offset() + rest == |d1| + (rest + 4);
      }
    }

    /** Finish and FinishSizePrefixed. Only a buffer that was never aligned to more than a byte can be too
        tight for the size prefix. */
    method Finish(root: nat, sizePrefix: bool) returns (ok: bool)
      requires Valid() && !nested && 0 < root <= Offset()
      modifies `bytes, `head, `minalign, `finished
      ensures Sound() && Extends(Data(), old(Data()))
      ensures ok ==> Valid() && finished && Multiple(Offset(), minalign)
      ensures ok && !sizePrefix ==> T.RootAs(Data(), 0) == Some(Offset() - root)
      ensures ok && sizePrefix ==>
                T.SizePrefixedRootAs(Data(), 0) == Some(Offset() - root) && T.SizePrefix(Data(), 0) == Some(Offset() - 4)
      ensures sizePrefix && Tight(old(|bytes|), old(Offset()), old(minalign), 8) ==> !ok
      ensures old(Offset()) + 2 * old(minalign) + 16 < GIB ==>
                ok || (sizePrefix && Tight(old(|bytes|), old(Offset()), old(minalign), 8))
    {
      hide Known, Multiple, Extends, Tight, Gap, Zeros, T.RootAs, T.SizePrefixedRootAs, T.SizePrefix;
      ghost var d, m := Data(), minalign;
      ok := FinishRoot(root, sizePrefix);
      KnownExtends(Data(), d, m, minalign, vtables, layouts, objects, sharedStrings);
    }

    /** FinishWithFileIdentifier and FinishSizePrefixedWithFileIdentifier. */
    method FinishWithFileIdentifier(root: nat, fid: seq<byte>, sizePrefix: bool) returns (ok: bool)
      requires Valid() && !nested && 0 < root <= Offset()
      modifies `bytes, `head, `minalign, `finished
      ensures Sound() && Extends(Data(), old(Data()))
      ensures ok ==> Valid() && finished && Multiple(Offset(), minalign)
      ensures ok && !sizePrefix ==>
                && T.RootAs(Data(), 0) == Some(Offset() - root)
                && (T.BufferIdentifier(Data()) == Some(fid)
                    <==> IdentifierInPlace(old(Offset()), old(minalign), 4) || fid == Zeros(4))
      ensures ok && sizePrefix ==>
                && T.SizePrefixedRootAs(Data(), 0) == Some(Offset() - root) && T.SizePrefix(Data(), 0) == Some(Offset() - 4)
                && (T.SizePrefixedBufferIdentifier(Data()) == Some(fid)
                    <==> IdentifierInPlace(old(Offset()), old(minalign), 8) || fid == Zeros(4))
      ensures old(minalign) >= 4 ==> IdentifierInPlace(old(Offset()), old(minalign), if sizePrefix then 8 else 4)
      ensures |fid| != T.IDENTIFIER ==> !ok && Data() == old(Data())
      ensures sizePrefix && Tight(old(|bytes|), old(Offset()), old(minalign), 12) ==> !ok
      ensures |fid| == T.IDENTIFIER && old(Offset()) + 4 * old(minalign) + 24 < GIB ==>
                ok || (sizePrefix && Tight(old(|bytes|), old(Offset()), old(minalign), 12))
    {
      hide Known, Multiple, Extends, Has, Tight, Gap, Zeros, Grown, CanGrow, IsPow2, IdentifierInPlace, T.Cut, T.RootAs,
           T.SizePrefixedRootAs, T.SizePrefix;
      ghost var d, m, offset := Data(), minalign, Offset();
      ghost var n := if sizePrefix then 8 else 4;
      Stays(d);
      if m >= 4 {
        Times(2, 4);
        Times(3, 4);
        IdentifierStays(offset, m, n);
      }
      if |fid| != T.IDENTIFIER {
        return false;
      }
      ghost var len := |bytes|;
      ok := PlaceIdentifier(fid, if sizePrefix then 8 else 4);
      if ok {
        ghost var d1 := Data();
        ExtendsLonger(d1, d);
        if sizePrefix {
          TightLater(len, offset, m);
        }
        ok := FinishRoot(root, sizePrefix);
        ExtendsTransitive(Data(), d1, d);
        KnownExtends(Data(), d, m, minalign, vtables, layouts, objects, sharedStrings);
        if ok {
          IdentifierRead(Data(), n, Gap(|d1|, 4, 0), d1, fid);
          PlacedIffAligned(offset, m, n);
        }
      }
    }

    method FinishedBytes() returns (b: seq<byte>)
      requires Sound() && finished
      ensures b == Data()
    {
      return bytes[head..];
    }

    // -- what a reader sees --

    lemma ObjectKnown(at: nat)
      requires Valid() && at in objects
      ensures KnownObject(Data(), minalign, at, objects[at])
    {
    }

    /** Slot `i` of any finished object reads as the last value it was given. In a finished buffer it
        starts at a multiple of its width. */
    lemma ScalarReadsBack(at: nat, i: nat, default: nat)
      requires Valid() && at in objects && i < |objects[at].fields|
      requires objects[at].fields[i].Some? && objects[at].fields[i].value.Scalar?
      ensures at <= Offset()
      ensures var bs := objects[at].fields[i].value.bytes;
              T.GetSlot(Data(), Offset() - at, 4 + 2 * i, |bs|, default) == Some(Get(bs))
      ensures var w, off := Width(objects[at].fields[i].value), T.VtableOffset(Data(), Offset() - at, 4 + 2 * i);
              w > 0 && off.Some? && (Multiple(Offset(), minalign) ==> Multiple(Offset() - at + off.value, w))
    {
      hide Known, ObjectAt, IsPow2, T.GetSlot, T.VtableOffset;
      ObjectKnown(at);
      var d, o := Data(), objects[at];
      ReadsBack(d, at, o, i, default);
      SlotAligned(d, minalign, at, o, i);
    }

    /** A slot that was given nothing, elided or trimmed, reads as its default. */
    lemma DefaultReadsBack(at: nat, i: nat, w: nat, default: nat)
      requires Valid() && at in objects && (i >= |objects[at].fields| || objects[at].fields[i].None?)
      ensures at <= Offset() && T.GetSlot(Data(), Offset() - at, 4 + 2 * i, w, default) == Some(default)
    {
      hide Known, ObjectAt, IsPow2, T.GetSlot;
      ObjectKnown(at);
      ReadsDefault(Data(), at, objects[at], i, w, default);
    }

    /** A slot that was given a reference leads to what it refers to. */
    lemma ReferenceReadsBack(at: nat, i: nat)
      requires Valid() && at in objects && i < |objects[at].fields|
      requires objects[at].fields[i].Some? && objects[at].fields[i].value.Ref?
      ensures at <= Offset()
      ensures var off := T.VtableOffset(Data(), Offset() - at, 4 + 2 * i);
              && off.Some? && off.value != 0
              && T.Indirect(Data(), U32(Offset() - at + off.value)) == Some(Offset() - objects[at].fields[i].value.target)
    {
      hide Known, ObjectAt, IsPow2, T.VtableOffset, T.Indirect;
      ObjectKnown(at);
      ReadsReference(Data(), at, objects[at], i);
    }
  }
}
