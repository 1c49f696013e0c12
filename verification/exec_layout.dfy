/** Where the visited arguments are in memory: the fields of a group one behind the other, the overlaid
    ones again from the start, and what a pointer points to at its address. */
module ExecLayout {
  import opened Common
  import opened ExecFormat
  import opened ExecProg

  /** The bytes the fields from lo up to hi take. */
  function Span(inner: seq<Arg>, lo: nat, hi: nat): nat
    requires lo <= hi <= |inner|
    decreases hi
  {
    if lo == hi then 0 else Span(inner, lo, hi - 1) + Size(inner[hi - 1])
  }

  /** The first of the fields that field i is laid out behind. */
  function FirstOf(overlay: nat, i: nat): nat { if overlay <= i then overlay else 0 }

  function FieldOffset(inner: seq<Arg>, overlay: nat, i: nat): nat
    requires i <= |inner|
  {
    Span(inner, FirstOf(overlay, i), i)
  }

  /** Fields laid out together do not overlap and leave no gaps. */
  lemma {:induction false} FieldsFollow(inner: seq<Arg>, overlay: nat, i: nat, j: nat)
    requires i < j < |inner| && FirstOf(overlay, i) == FirstOf(overlay, j)
    ensures FieldOffset(inner, overlay, i) + Size(inner[i]) <= FieldOffset(inner, overlay, j)
    ensures j == i + 1 ==> FieldOffset(inner, overlay, i) + Size(inner[i]) == FieldOffset(inner, overlay, j)
    decreases j
  {
    hide Size;
    if i < j - 1 { FieldsFollow(inner, overlay, i, j - 1); }
  }

  /** The visits of the fields from i on, each at its offset behind the start of the group. */
  function FieldVisits(inner: seq<Arg>, i: nat, overlay: nat, base: Option<U64>, start: nat): seq<Visit>
    requires i <= |inner|
    decreases |inner| - i
  {
    if i == |inner| then []
    else
      Visits(inner[i], base, start + FieldOffset(inner, overlay, i)) + FieldVisits(inner, i + 1, overlay, base, start)
  }

  lemma {:induction false} InnerAtOffsets(
      inner: seq<Arg>, i: nat, overlay: nat, base: Option<U64>, start: nat, offset: nat)
    requires i <= |inner| && (i != overlay ==> offset == start + FieldOffset(inner, overlay, i))
    ensures InnerVisits(inner, i, overlay, base, start, offset) == FieldVisits(inner, i, overlay, base, start)
    decreases |inner| - i
  {
    hide Size, Visits;
    if i < |inner| {
      var here := if i == overlay then start else offset;
      assert here == start + FieldOffset(inner, overlay, i);
      InnerAtOffsets(inner, i + 1, overlay, base, start, here + Size(inner[i]));
    }
  }

  /** Every argument comes before its parts; a field stands at its offset, an option where its union
      stands, a pointee at the start of its block. */
  lemma VisitsLaidOut(a: Arg, base: Option<U64>, offset: nat)
    ensures Visits(a, base, offset)[0].arg == a
    ensures Visits(a, base, offset)[0].addr.Some? <==> base.Some?
    ensures base.Some? ==>
      (Visits(a, base, offset)[0].addr.value + a.at.unitOffset) % TWO64 == (base.value + offset) % TWO64
    ensures a.GroupArg? ==> Visits(a, base, offset)[1..] == FieldVisits(a.inner, 0, a.overlay, base, offset)
    ensures a.UnionArg? ==> Visits(a, base, offset)[1..] == Visits(a.option, base, offset)
    ensures a.PointerArg? && a.pointee.Some? ==>
      Visits(a, base, offset)[1..] == Visits(a.pointee.value, Some(a.phys), 0)
    ensures a.ConstArg? || a.ResultArg? || a.DataArg? || (a.PointerArg? && a.pointee.None?) ==>
      Visits(a, base, offset)[1..] == []
  {
    if a.GroupArg? { InnerAtOffsets(a.inner, 0, a.overlay, base, offset, offset); }
    if base.Some? { ModBack(base.value + offset, a.at.unitOffset); }
  }

  lemma ModBack(x: nat, u: nat)
    ensures ((x - u) % TWO64 + u) % TWO64 == x % TWO64
  {
  }
}
