/** What the bytes of a buffer under construction mean. The buffer grows at its front, so places are
    named by their offset from the end, and whatever holds of a buffer holds of its extensions. */
module Layout {
  import opened Alignment
  import opened Bytes
  import opened Common
  import T = Table

  /** At `off` bytes from the end of `d` the bytes `bs` are found. */
  predicate Has(d: seq<byte>, off: nat, bs: seq<byte>) {
    |bs| <= off <= |d| && d[|d| - off..|d| - off + |bs|] == bs
  }

  /** `d` is what `earlier` has grown into. */
  predicate Extends(d: seq<byte>, earlier: seq<byte>) {
    |earlier| <= |d| && d[|d| - |earlier|..] == earlier
  }

  lemma HasExtends(d: seq<byte>, earlier: seq<byte>, off: nat, bs: seq<byte>)
    requires Extends(d, earlier) && Has(earlier, off, bs)
    ensures Has(d, off, bs)
  {
    var k := |d| - |earlier|;
    assert d[|d| - off..|d| - off + |bs|] == d[k..][|earlier| - off..|earlier| - off + |bs|];
  }

  lemma ExtendsTransitive(a: seq<byte>, b: seq<byte>, c: seq<byte>)
    requires Extends(a, b) && Extends(b, c)
    ensures Extends(a, c)
  {
    assert a[|a| - |c|..] == a[|a| - |b|..][|b| - |c|..];
  }

  lemma PrependExtends(p: seq<byte>, d: seq<byte>)
    ensures Extends(p + d, d)
    ensures Has(p + d, |p| + |d|, p)
  {
    assert (p + d)[|p|..] == d;
  }

  lemma SubSlice(d: seq<byte>, k: nat, m: nat, i: nat, n: nat)
    requires k + m <= |d| && i + n <= m
    ensures d[k..k + m][i..i + n] == d[k + i..k + i + n]
  {
    var a, b := d[k..k + m][i..i + n], d[k + i..k + i + n];
    assert |a| == |b| && forall j :: 0 <= j < n ==> a[j] == b[j];
  }

  /** A part of what is found somewhere is found a little nearer to the end. */
  lemma HasPart(d: seq<byte>, off: nat, bs: seq<byte>, i: nat, n: nat)
    requires Has(d, off, bs) && i + n <= |bs|
    ensures Has(d, off - i, bs[i..i + n])
  {
    SubSlice(d, |d| - off, |bs|, i, n);
  }

  /** At `off` from the end the `w`-byte unsigned number `n` is found. */
  predicate HasUint(d: seq<byte>, off: nat, w: nat, n: nat) {
    w <= off <= |d| && T.ReadUint(d, |d| - off, w) == Some(n)
  }

  lemma HasRead(d: seq<byte>, off: nat, bs: seq<byte>)
    requires Has(d, off, bs)
    ensures T.ReadUint(d, |d| - off, |bs|) == Some(Get(bs))
  {
  }

  /** At `off` from the end the signed 32-bit number `n` is found. */
  predicate HasInt(d: seq<byte>, off: nat, n: int) {
    4 <= off <= |d| && T.ReadSOffset(d, |d| - off) == Some(n)
  }

  lemma UintExtends(d: seq<byte>, earlier: seq<byte>, off: nat, w: nat, n: nat)
    requires Extends(d, earlier) && HasUint(earlier, off, w, n)
    ensures HasUint(d, off, w, n)
  {
    var k := |earlier| - off;
    HasExtends(d, earlier, off, earlier[k..k + w]);
  }

  lemma IntExtends(d: seq<byte>, earlier: seq<byte>, off: nat, n: int)
    requires Extends(d, earlier) && HasInt(earlier, off, n)
    ensures HasInt(d, off, n)
  {
    var k := |earlier| - off;
    HasExtends(d, earlier, off, earlier[k..k + 4]);
  }

  /** The bytes of a number that fits its width are the number. */
  lemma HasIsUint(d: seq<byte>, off: nat, w: nat, n: nat)
    requires Has(d, off, Put(n, w)) && n < Range(w)
    ensures HasUint(d, off, w, n)
  {
    RoundTrip(n, w);
  }

  lemma HasIsInt(d: seq<byte>, off: nat, n: int)
    requires Has(d, off, PutSigned(n)) && -TWO31 <= n < TWO31
    ensures HasInt(d, off, n)
  {
    SignedRoundTrip(n);
  }

  // ---- vtables ----

  const MAX_FIELDS: nat := 32765       // the vtable's own size must fit 16 bits

  /** A vtable with entries `es` lies at `vt`: its size in bytes, the object's size, and for each
      slot the distance of the field from the start of the object, or 0. Being smaller than the
      vtable's own offset, an entry cannot be mistaken for the offset of an object that comes later. */
  predicate VtableAt(d: seq<byte>, vt: nat, es: seq<nat>) {
    && |es| <= MAX_FIELDS && 4 + 2 * |es| <= vt
    && HasUint(d, vt, 2, 4 + 2 * |es|)
    && (forall i :: 0 <= i < |es| ==> EntryAt(d, vt, i, es[i]))
  }

  predicate EntryAt(d: seq<byte>, vt: nat, i: nat, e: nat) {
    4 + 2 * i <= vt && HasUint(d, vt - (4 + 2 * i), 2, e) && e < 0x1_0000 && e < vt
  }

  /** How many bytes `n` elements of `w` bytes take. */
  function Span(w: nat, n: nat): nat { if n == 0 then 0 else Span(w, n - 1) + w }

  lemma {:induction false} SpanTimes(w: nat, n: nat)
    ensures Span(w, n) == w * n
    decreases n
  {
    if n > 0 {
      SpanTimes(w, n - 1);
      assert w * n == w * (n - 1) + w;
    }
  }

  lemma {:induction false} SpanInside(w: nat, i: nat, n: nat)
    requires i < n
    ensures Span(w, i) + w <= Span(w, n)
    decreases n
  {
    if i < n - 1 {
      SpanInside(w, i, n - 1);
    }
  }

  /** The bytes of numbers of `w` bytes one after the other. */
  function PutAll(xs: seq<nat>, w: nat): (b: seq<byte>)
    ensures |b| == Span(w, |xs|)
  {
    if xs == [] then [] else Put(xs[0], w) + PutAll(xs[1..], w)
  }

  lemma {:induction false} PutAllEntry(xs: seq<nat>, w: nat, i: nat)
    requires i < |xs|
    ensures Span(w, i) + w <= Span(w, |xs|) && PutAll(xs, w)[Span(w, i)..Span(w, i) + w] == Put(xs[i], w)
  {
    hide Put;
    SpanInside(w, i, |xs|);
    if i > 0 {
      PutAllEntry(xs[1..], w, i - 1);
      SkipOne(Put(xs[0], w), PutAll(xs[1..], w), Span(w, i), w);
    }
  }

  lemma SkipOne(a: seq<byte>, b: seq<byte>, k: nat, n: nat)
    requires |a| <= k && k + n <= |a| + |b|
    ensures (a + b)[k..k + n] == b[k - |a|..k - |a| + n]
  {
  }

  function VtableBytes(size: nat, es: seq<nat>): (v: seq<byte>)
    ensures |v| == 4 + 2 * |es|
  {
    SpanTimes(2, |es|);
    Put(4 + 2 * |es|, 2) + Put(size, 2) + PutAll(es, 2)
  }

  /** The parts of a vtable's bytes. */
  lemma VtableParts(size: nat, es: seq<nat>, i: nat)
    ensures VtableBytes(size, es)[0..2] == Put(4 + 2 * |es|, 2)
    ensures i < |es| ==> VtableBytes(size, es)[4 + 2 * i..4 + 2 * i + 2] == Put(es[i], 2)
  {
    hide Put, PutAll, Range;
    var a, b, c := Put(4 + 2 * |es|, 2), Put(size, 2), PutAll(es, 2);
    assert VtableBytes(size, es) == a + b + c;
    FirstPart(a, b, c);
    SpanTimes(2, |es|);
    if i < |es| {
      SpanTimes(2, i);
      PutAllEntry(es, 2, i);
      ThirdPart(a, b, c, 2 * i);
    }
  }

  lemma FirstPart(a: seq<byte>, b: seq<byte>, c: seq<byte>)
    requires |a| == 2
    ensures (a + b + c)[0..2] == a
  {
  }

  lemma ThirdPart(a: seq<byte>, b: seq<byte>, c: seq<byte>, k: nat)
    requires |a| == |b| == 2 && k + 2 <= |c|
    ensures (a + b + c)[4 + k..4 + k + 2] == c[k..k + 2]
  {
  }

  /** What the builder writes for a vtable is one. */
  lemma VtableWritten(d: seq<byte>, size: nat, es: seq<nat>)
    requires |es| <= MAX_FIELDS && forall i :: 0 <= i < |es| ==> es[i] < 0x1_0000 && es[i] < 4 + 2 * |es| + |d|
    ensures VtableAt(VtableBytes(size, es) + d, 4 + 2 * |es| + |d|, es)
  {
    var v := VtableBytes(size, es);
    var e, vt := v + d, |v| + |d|;
    Ranges();
    PrependExtends(v, d);
    VtableParts(size, es, 0);
    HasPart(e, vt, v, 0, 2);
    HasIsUint(e, vt, 2, 4 + 2 * |es|);
    forall i | 0 <= i < |es| ensures EntryAt(e, vt, i, es[i]) {
      VtableParts(size, es, i);
      HasPart(e, vt, v, 4 + 2 * i, 2);
      HasIsUint(e, vt - (4 + 2 * i), 2, es[i]);
    }
  }

  function Entry(es: seq<nat>, i: nat): nat { if i < |es| then es[i] else 0 }

  // ---- tables ----

  /** What a slot was given: a scalar, or a reference to something at an earlier offset. */
  datatype Field = Scalar(bytes: seq<byte>) | Ref(target: nat)

  function Width(f: Field): nat { if f.Scalar? then |f.bytes| else 4 }

  /** The field lies at `off`, aligned to its width. A reference is stored as a distance. */
  predicate FieldAt(d: seq<byte>, off: nat, f: Field) {
    && IsWidth(Width(f)) && Multiple(off, Width(f))
    && match f
       case Scalar(bs) => Has(d, off, bs)
       case Ref(target) => 0 < target && target + 4 <= off && HasUint(d, off, 4, off - target)
  }

  /** A finished object: at `at` the signed distance to its vtable, whose entry for each slot leads
      to the slot's field, or is 0 where the slot was never given one. */
  datatype Object = Object(vt: nat, es: seq<nat>, fields: seq<Option<Field>>)

  predicate ObjectAt(d: seq<byte>, at: nat, o: Object) {
    && HasInt(d, at, o.vt - at)
    && VtableAt(d, o.vt, o.es)
    && |o.es| <= |o.fields|
    && (forall i :: 0 <= i < |o.fields| ==> SlotAt(d, at, Entry(o.es, i), o.fields[i]))
  }

  predicate SlotAt(d: seq<byte>, at: nat, e: nat, f: Option<Field>) {
    match f
    case None => e == 0
    case Some(x) => 0 < e < at && FieldAt(d, at - e, x)
  }

  lemma FieldExtends(d: seq<byte>, earlier: seq<byte>, off: nat, f: Field)
    requires Extends(d, earlier) && FieldAt(earlier, off, f)
    ensures FieldAt(d, off, f)
  {
    match f
    case Scalar(bs) => HasExtends(d, earlier, off, bs);
    case Ref(target) => UintExtends(d, earlier, off, 4, off - target);
  }

  lemma VtableExtends(d: seq<byte>, earlier: seq<byte>, vt: nat, es: seq<nat>)
    requires Extends(d, earlier) && VtableAt(earlier, vt, es)
    ensures VtableAt(d, vt, es)
  {
    UintExtends(d, earlier, vt, 2, 4 + 2 * |es|);
    forall i | 0 <= i < |es| ensures EntryAt(d, vt, i, es[i]) {
      assert EntryAt(earlier, vt, i, es[i]);
      UintExtends(d, earlier, vt - (4 + 2 * i), 2, es[i]);
    }
  }

  /** An object stays what it is, whatever is built in front of it. */
  lemma ObjectExtends(d: seq<byte>, earlier: seq<byte>, at: nat, o: Object)
    requires Extends(d, earlier) && ObjectAt(earlier, at, o)
    ensures ObjectAt(d, at, o)
  {
    IntExtends(d, earlier, at, o.vt - at);
    VtableExtends(d, earlier, o.vt, o.es);
    forall i | 0 <= i < |o.fields| ensures SlotAt(d, at, Entry(o.es, i), o.fields[i]) {
      assert SlotAt(earlier, at, Entry(o.es, i), o.fields[i]);
      if o.fields[i].Some? {
        FieldExtends(d, earlier, at - Entry(o.es, i), o.fields[i].value);
      }
    }
  }

  /** 32-bit arithmetic on positions inside the buffer does not wrap. */
  lemma NoWrap(x: nat)
    requires x < TWO32
    ensures U32(x) == x
  {
  }

  /** The reader's view of a slot. */
  lemma SlotOffset(d: seq<byte>, at: nat, vt: nat, es: seq<nat>, i: nat)
    requires HasInt(d, at, vt - at) && VtableAt(d, vt, es) && |d| < TWO31
    ensures T.VtableOffset(d, |d| - at, 4 + 2 * i) == Some(Entry(es, i))
  {
    var vtable := |d| - vt;
    NoWrap(vtable);
    assert |d| - at - (vt - at) == vtable;
    if i < |es| {
      assert EntryAt(d, vt, i, es[i]);
      NoWrap(vtable + (4 + 2 * i));
      assert vtable + (4 + 2 * i) == |d| - (vt - (4 + 2 * i));
    }
  }

  /** Reading slot `i` of an object that was given a scalar gives that scalar. */
  lemma ReadsBack(d: seq<byte>, at: nat, o: Object, i: nat, default: nat)
    requires ObjectAt(d, at, o) && |d| < TWO31
    requires i < |o.fields| && o.fields[i].Some? && o.fields[i].value.Scalar?
    ensures at <= |d|
    ensures var bs := o.fields[i].value.bytes;
            T.GetSlot(d, |d| - at, 4 + 2 * i, |bs|, default) == Some(Get(bs))
  {
    hide VtableAt;
    SlotOffset(d, at, o.vt, o.es, i);
    var e, bs := Entry(o.es, i), o.fields[i].value.bytes;
    assert SlotAt(d, at, e, o.fields[i]);
    NoWrap(|d| - at + e);
    HasRead(d, at - e, bs);
    assert |d| - at + e == |d| - (at - e);
  }

  /** A slot that was given nothing reads as its default, and so does a slot beyond those of the
      object's type. */
  lemma ReadsDefault(d: seq<byte>, at: nat, o: Object, i: nat, w: nat, default: nat)
    requires ObjectAt(d, at, o) && |d| < TWO31
    requires i >= |o.fields| || o.fields[i].None?
    ensures at <= |d|
    ensures T.GetSlot(d, |d| - at, 4 + 2 * i, w, default) == Some(default)
  {
    SlotOffset(d, at, o.vt, o.es, i);
    if i < |o.fields| {
      assert SlotAt(d, at, Entry(o.es, i), o.fields[i]);
    }
  }

  /** Following slot `i` of an object that was given a reference leads to the referenced offset. */
  lemma ReadsReference(d: seq<byte>, at: nat, o: Object, i: nat)
    requires ObjectAt(d, at, o) && |d| < TWO31
    requires i < |o.fields| && o.fields[i].Some? && o.fields[i].value.Ref?
    ensures at <= |d|
    ensures var off := T.VtableOffset(d, |d| - at, 4 + 2 * i);
            && off.Some? && off.value != 0
            && T.Indirect(d, U32(|d| - at + off.value)) == Some(|d| - o.fields[i].value.target)
  {
    SlotOffset(d, at, o.vt, o.es, i);
    var e := Entry(o.es, i);
    assert SlotAt(d, at, e, o.fields[i]);
    NoWrap(|d| - at + e);
    FollowRef(d, at - e, o.fields[i].value.target);
  }

  lemma FollowRef(d: seq<byte>, off: nat, target: nat)
    requires FieldAt(d, off, Ref(target)) && |d| < TWO31
    ensures off <= |d| && T.Indirect(d, |d| - off) == Some(|d| - target)
  {
    assert U32(|d| - off + (off - target)) == |d| - target;
  }

  // ---- vectors and strings ----

  /** A vector of `n` elements: the count, then the data. */
  predicate VectorAt(d: seq<byte>, off: nat, n: nat, data: seq<byte>) {
    off >= 4 && HasUint(d, off, 4, n) && Has(d, off - 4, data)
  }

  lemma VectorExtends(d: seq<byte>, earlier: seq<byte>, off: nat, n: nat, data: seq<byte>)
    requires Extends(d, earlier) && VectorAt(earlier, off, n, data)
    ensures VectorAt(d, off, n, data)
  {
    UintExtends(d, earlier, off, 4, n);
    HasExtends(d, earlier, off - 4, data);
  }

  /** A byte vector or a string reached through a reference reads back as its bytes; a string's
      terminating zero is not part of them. */
  lemma ByteVectorReadsBack(d: seq<byte>, ref: nat, off: nat, s: seq<byte>, tail: seq<byte>)
    requires FieldAt(d, ref, Ref(off)) && VectorAt(d, off, |s|, s + tail) && |d| < TWO31
    ensures ref <= |d| && T.ByteVector(d, |d| - ref) == Some(s)
  {
    hide Multiple;
    FollowRef(d, ref, off);
    HasPart(d, off - 4, s + tail, 0, |s|);
    assert (s + tail)[0..|s|] == s;
    assert U32(|d| - off + 4) == |d| - (off - 4);
    assert U32(|d| - off + 4 + |s|) == |d| - (off - 4) + |s|;
  }

  /** A vector of references: element `i` leads to `targets[i]`. */
  predicate RefsAt(d: seq<byte>, off: nat, targets: seq<nat>) {
    && 4 + 4 * |targets| <= off
    && HasUint(d, off, 4, |targets|)
    && (forall i :: 0 <= i < |targets| ==> FieldAt(d, off - 4 - 4 * i, Ref(targets[i])))
  }

  lemma RefsExtend(d: seq<byte>, earlier: seq<byte>, off: nat, targets: seq<nat>)
    requires Extends(d, earlier) && RefsAt(earlier, off, targets)
    ensures RefsAt(d, off, targets)
  {
    UintExtends(d, earlier, off, 4, |targets|);
    forall i | 0 <= i < |targets| ensures FieldAt(d, off - 4 - 4 * i, Ref(targets[i])) {
      FieldExtends(d, earlier, off - 4 - 4 * i, Ref(targets[i]));
    }
  }

  /** Length, start and elements of a vector of tables, read through the field that refers to it. */
  lemma RefsReadBack(d: seq<byte>, at: nat, e: nat, off: nat, targets: seq<nat>, i: nat)
    requires e <= at <= |d| && FieldAt(d, at - e, Ref(off)) && RefsAt(d, off, targets) && |d| < TWO31
    ensures off <= |d|
    ensures T.VectorLen(d, |d| - at, e) == Some(|targets|)
    ensures T.Vector(d, |d| - at, e) == Some(|d| - off + 4)
    ensures i < |targets| ==> T.Indirect(d, |d| - off + 4 + 4 * i) == Some(|d| - targets[i])
  {
    FollowRef(d, at - e, off);
    NoWrap(|d| - at + e);
    assert U32(|d| - off + 4) == |d| - off + 4;
    if i < |targets| {
      FollowRef(d, off - 4 - 4 * i, targets[i]);
      assert |d| - (off - 4 - 4 * i) == |d| - off + 4 + 4 * i;
    }
  }

  lemma PartReads(d: seq<byte>, off: nat, bs: seq<byte>, k: nat, n: nat)
    requires Has(d, off, bs) && k + n <= |bs|
    ensures T.ReadUint(d, |d| - off + k, n) == Some(Get(bs[k..k + n]))
  {
    hide Get;
    HasPart(d, off, bs, k, n);
    HasRead(d, off - k, bs[k..k + n]);
    assert |d| - (off - k) == |d| - off + k;
  }

  /** Length and start of a vector, read through the field that refers to it. */
  lemma VectorReadsBack(d: seq<byte>, at: nat, e: nat, off: nat, n: nat, data: seq<byte>)
    requires e <= at <= |d| && FieldAt(d, at - e, Ref(off)) && VectorAt(d, off, n, data) && |d| < TWO31
    ensures off <= |d|
    ensures T.VectorLen(d, |d| - at, e) == Some(n)
    ensures T.Vector(d, |d| - at, e) == Some(|d| - off + 4)
  {
    hide Get, Multiple;
    FollowRef(d, at - e, off);
    NoWrap(|d| - at + e);
    NoWrap(|d| - off + 4);
  }

  /** The elements of a vector of `w`-byte numbers. */
  lemma NumbersReadBack(d: seq<byte>, off: nat, xs: seq<nat>, w: nat, i: nat)
    requires VectorAt(d, off, |xs|, PutAll(xs, w)) && i < |xs|
    ensures T.ReadUint(d, |d| - (off - 4) + Span(w, i), w) == Some(xs[i] % Range(w))
  {
    hide Put, PutAll, Get, Range, Has, Span;
    var k := Span(w, i);
    PutAllEntry(xs, w, i);
    PartReads(d, off - 4, PutAll(xs, w), k, w);
    GetPut(xs[i], w);
  }

  /** In a buffer whose length is a multiple of the largest alignment, each element of a vector starts
      at a multiple of its width. */
  lemma ElementAligned(total: nat, minalign: nat, off: nat, alignment: nat, w: nat, i: nat)
    requires IsPow2(minalign) && IsPow2(alignment) && IsPow2(w) && w <= alignment <= minalign
    requires Span(w, i) <= off <= total && Multiple(total, minalign) && Multiple(off, alignment)
    ensures Multiple(total - off + Span(w, i), w)
  {
    hide Multiple, IsPow2;
    Pow2Divides(w, alignment);
    Transitive(off, alignment, w);
    FromStart(total, minalign, off, w);
    SpanTimes(w, i);
    Times(i, w);
    Sum(total - off, Span(w, i), w);
  }

  // ---- the start of a finished buffer ----

  /** A root reference at the very start. */
  lemma RootReadsBack(d: seq<byte>, root: nat)
    requires FieldAt(d, |d|, Ref(root)) && |d| < TWO31
    ensures T.RootAs(d, 0) == Some(|d| - root)
  {
  }

  /** A size, then a root reference. */
  lemma PrefixedRootReadsBack(d: seq<byte>, root: nat)
    requires |d| >= 4 && FieldAt(d, |d| - 4, Ref(root)) && HasUint(d, |d|, 4, |d| - 4) && |d| < TWO31
    ensures T.SizePrefixedRootAs(d, 0) == Some(|d| - root)
    ensures T.SizePrefix(d, 0) == Some(|d| - 4)
  {
    NoWrap(4);
    NoWrap(|d| - root);
  }

  lemma IdentifierReadsBack(d: seq<byte>, fid: seq<byte>)
    requires |fid| == 4 && |d| >= 4 && Has(d, |d| - 4, fid)
    ensures T.BufferIdentifier(d) == Some(fid)
  {
  }

  lemma PrefixedIdentifierReadsBack(d: seq<byte>, fid: seq<byte>)
    requires |fid| == 4 && |d| >= 8 && Has(d, |d| - 8, fid)
    ensures T.SizePrefixedBufferIdentifier(d) == Some(fid)
  {
  }
}
