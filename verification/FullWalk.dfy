/** The full value encoder of packages/devtools/src/full.ts: a walk over a heap that may be cyclic,
    bounded by a shared budget, a depth, an entry count and the set of ancestors on the path. */
module FullWalk {
  import opened Prelude

  const FULL_MAX_DEPTH := 24
  const FULL_MAX_STRING_LENGTH := 65536
  const FULL_MAX_ENTRIES := 4096
  const FULL_MAX_NODES := 50000

  type Id = nat

  datatype Val =
    | Nullish                 // null and undefined
    | Scalar(rendered: string) // booleans and numbers
    | BigInt(rendered: string)
    | Function(name: string)
    | Symbol(rendered: string)
    | Text(s: string)
    | Ref(id: Id)

  datatype Obj =
    | ArrayOf(items: seq<Val>)
    | MapOf(entries: seq<(Val, Val)>)
    | SetOf(items: seq<Val>)
    | DateOf(iso: Option<string>)  // None: an invalid date, whose rendering throws
    | Plain(fields: seq<(string, Val)>, className: Option<string>)

  /** Every object that exists; nothing is said about cycles or sharing. */
  type Heap = Id -> Obj

  datatype Cutoff = ByBudget | ByDepth

  datatype Desc =
    | DNull
    | DScalar(rendered: string)
    | DOpaque(typ: string)
    | DText(s: string)
    | DCutText(length: nat, head: string)
    | DDate(iso: string)
    | DUnreadable
    | DElided(cutoff: Cutoff)
    | DCycle
    | DArray(items: seq<Desc>, cut: Option<nat>)
    | DMap(entries: seq<Desc>, size: nat)  // key, value, key, value ...
    | DSet(items: seq<Desc>, size: nat)
    | DObject(keys: seq<string>, values: seq<Desc>, cut: Option<nat>, className: Option<string>)

  function Kept<T>(s: seq<T>): (r: seq<T>)
    ensures |r| <= FULL_MAX_ENTRIES && r <= s
  {
    if |s| <= FULL_MAX_ENTRIES then s else s[..FULL_MAX_ENTRIES]
  }

  function Flatten(entries: seq<(Val, Val)>): (r: seq<Val>)
    ensures |r| == 2 * |entries|
  {
    if entries == [] then [] else [entries[0].0, entries[0].1] + Flatten(entries[1..])
  }

  function Values(fields: seq<(string, Val)>): (r: seq<Val>)
    ensures |r| == |fields|
  {
    seq(|fields|, i requires 0 <= i < |fields| => fields[i].1)
  }

  function Keys(fields: seq<(string, Val)>): (r: seq<string>)
    ensures |r| == |fields|
  {
    seq(|fields|, i requires 0 <= i < |fields| => fields[i].0)
  }

  predicate IsContainer(o: Obj) { !o.DateOf? }

  /** The values an object is descended into, in order. */
  function Children(o: Obj): (r: seq<Val>)
    ensures |r| <= 2 * FULL_MAX_ENTRIES
  {
    match o
    case ArrayOf(items) => Kept(items)
    case MapOf(entries) => Flatten(Kept(entries))
    case SetOf(items) => Kept(items)
    case DateOf(_) => []
    case Plain(fields, _) => Values(Kept(fields))
  }

  function EntryCount(o: Obj): nat
  {
    match o
    case ArrayOf(items) => |items|
    case MapOf(entries) => |entries|
    case SetOf(items) => |items|
    case DateOf(_) => 0
    case Plain(fields, _) => |fields|
  }

  function CutOf(n: nat): Option<nat>
  {
    if n > FULL_MAX_ENTRIES then Some(n) else None
  }

  /** The container's description from the descriptions of its children. */
  function Rebuild(o: Obj, outs: seq<Desc>): Desc
    requires IsContainer(o)
  {
    match o
    case ArrayOf(items) => DArray(outs, CutOf(|items|))
    case MapOf(entries) => DMap(outs, |entries|)
    case SetOf(items) => DSet(outs, |items|)
    case Plain(fields, className) => DObject(Keys(Kept(fields)), outs, CutOf(|fields|), className)
  }

  function DescribePrimitive(v: Val): Desc
    requires !v.Ref?
  {
    match v
    case Nullish => DNull
    case Scalar(r) => DScalar(r)
    case BigInt(r) => DOpaque("bigint:" + r)
    case Function(name) => DOpaque("function:" + if name == "" then "anonymous" else name)
    case Symbol(r) => DOpaque(r)
    case Text(s) =>
      if |s| <= FULL_MAX_STRING_LENGTH then DText(s) else DCutText(|s|, s[..FULL_MAX_STRING_LENGTH])
  }

  // ---------------------------------------------------------------- the walk as a function

  /** What one call returns: its output, the budget it leaves and the calls made for it. */
  datatype Walked<+T> = Walked(out: T, left: int, calls: nat)

  function Levels(depth: nat): nat
  {
    if depth < FULL_MAX_DEPTH then FULL_MAX_DEPTH - depth else 0
  }

  function Full(h: Heap, v: Val, depth: nat, seen: set<Id>, left: int): Walked<Desc>
    decreases Levels(depth), 1, 0
  {
    if left <= 0 then Walked(DElided(ByBudget), left, 1)
    else if !v.Ref? then Walked(DescribePrimitive(v), left - 1, 1)
    else
      var w := Structure(h, v.id, depth, seen, left - 1);
      w.(calls := w.calls + 1)
  }

  function Structure(h: Heap, id: Id, depth: nat, seen: set<Id>, left: int): Walked<Desc>
    decreases Levels(depth), 0, 0
  {
    if id in seen then Walked(DCycle, left, 0)
    else if h(id).DateOf? then Walked(if h(id).iso.Some? then DDate(h(id).iso.value) else DUnreadable, left, 0)
    else if depth >= FULL_MAX_DEPTH then Walked(DElided(ByDepth), left, 0)
    else
      var w := FullAll(h, Children(h(id)), depth + 1, seen + {id}, left);
      Walked(Rebuild(h(id), w.out), w.left, w.calls)
  }

  function FullAll(h: Heap, vs: seq<Val>, depth: nat, seen: set<Id>, left: int): (w: Walked<seq<Desc>>)
    ensures |w.out| == |vs|
    decreases Levels(depth), 2, |vs|
  {
    if vs == [] then Walked([], left, 0)
    else
      var first := Full(h, vs[0], depth, seen, left);
      var rest := FullAll(h, vs[1..], depth, seen, first.left);
      Walked([first.out] + rest.out, rest.left, first.calls + rest.calls)
  }

  // ---------------------------------------------------------------- total work

  /** Calls that found the budget empty. */
  function Unpaid<T>(left: int, w: Walked<T>): int { w.calls - (left - w.left) }

  /** Only containers already open can still spawn calls once the budget is gone. */
  function Room(depth: nat): nat { Levels(depth) * (2 * FULL_MAX_ENTRIES) }

  lemma {:induction false} UnpaidCalls(h: Heap, v: Val, depth: nat, seen: set<Id>, left: int)
    ensures var w := Full(h, v, depth, seen, left);
      && (left <= 0 ==> w.left == left && w.calls == 1)
      && (left > 0 ==> 0 <= w.left < left && 0 <= Unpaid(left, w) <= Room(depth))
      && (w.left > 0 ==> Unpaid(left, w) == 0)
    decreases Levels(depth), 1, 0
  {
    if left > 0 && v.Ref? && v.id !in seen && IsContainer(h(v.id)) && depth < FULL_MAX_DEPTH {
      UnpaidCallsOfAll(h, Children(h(v.id)), depth + 1, seen + {v.id}, left - 1);
      assert Room(depth) == Room(depth + 1) + 2 * FULL_MAX_ENTRIES;
    }
  }

  lemma {:induction false} UnpaidCallsOfAll(h: Heap, vs: seq<Val>, depth: nat, seen: set<Id>, left: int)
    ensures var w := FullAll(h, vs, depth, seen, left);
      && (left <= 0 ==> w.left == left && w.calls == |vs|)
      && (left > 0 ==> 0 <= w.left <= left && 0 <= Unpaid(left, w) <= Room(depth) + |vs|)
      && (w.left > 0 ==> Unpaid(left, w) == 0)
    decreases Levels(depth), 2, |vs|
  {
    if vs != [] {
      UnpaidCalls(h, vs[0], depth, seen, left);
      var first := Full(h, vs[0], depth, seen, left);
      UnpaidCallsOfAll(h, vs[1..], depth, seen, first.left);
    }
  }

  /** One top-level call makes at most `FULL_MAX_NODES + 24 * 2 * 4096` calls on any heap. */
  lemma TotalWorkIsBounded(h: Heap, v: Val)
    ensures Full(h, v, 0, {}, FULL_MAX_NODES).calls
         <= FULL_MAX_NODES + FULL_MAX_DEPTH * 2 * FULL_MAX_ENTRIES
  {
    UnpaidCalls(h, v, 0, {}, FULL_MAX_NODES);
  }

  // ---------------------------------------------------------------- complete encodings

  /** The value unfolds completely in at most `levels` nested containers, none of them cut.  No value
      that reaches itself does. */
  predicate Fits(h: Heap, v: Val, levels: nat)
    decreases levels
  {
    match v
    case Ref(id) =>
      if h(id).DateOf? then h(id).iso.Some?
      else (
        && levels > 0 && EntryCount(h(id)) <= FULL_MAX_ENTRIES
        && forall c :: c in Children(h(id)) ==> Fits(h, c, levels - 1))
    case Text(s) => |s| <= FULL_MAX_STRING_LENGTH
    case _ => true
  }

  /** The complete unfolding: no budget, no ancestors, shared objects repeated. */
  function Unfold(h: Heap, v: Val, levels: nat): Desc
    requires Fits(h, v, levels)
    decreases levels, 0, 0
  {
    if !v.Ref? then DescribePrimitive(v)
    else if h(v.id).DateOf? then DDate(h(v.id).iso.value)
    else Rebuild(h(v.id), UnfoldAll(h, Children(h(v.id)), levels - 1))
  }

  function UnfoldAll(h: Heap, vs: seq<Val>, levels: nat): (outs: seq<Desc>)
    requires forall c :: c in vs ==> Fits(h, c, levels)
    ensures |outs| == |vs|
    decreases levels, 1, |vs|
  {
    if vs == [] then [] else [Unfold(h, vs[0], levels)] + UnfoldAll(h, vs[1..], levels)
  }

  /** How many values the unfolding has. */
  function Size(h: Heap, v: Val, levels: nat): nat
    requires Fits(h, v, levels)
    decreases levels, 0, 0
  {
    if v.Ref? && IsContainer(h(v.id)) then 1 + SizeAll(h, Children(h(v.id)), levels - 1) else 1
  }

  function SizeAll(h: Heap, vs: seq<Val>, levels: nat): nat
    requires forall c :: c in vs ==> Fits(h, c, levels)
    decreases levels, 1, |vs|
  {
    if vs == [] then 0 else Size(h, vs[0], levels) + SizeAll(h, vs[1..], levels)
  }

  lemma {:induction false} MoreLevelsFit(h: Heap, v: Val, levels: nat, more: nat)
    requires Fits(h, v, levels) && levels <= more
    ensures Fits(h, v, more)
    decreases levels
  {
    if v.Ref? && IsContainer(h(v.id)) {
      forall c | c in Children(h(v.id)) ensures Fits(h, c, more - 1) {
        MoreLevelsFit(h, c, levels - 1, more - 1);
      }
    }
  }

  lemma {:induction false} MoreLevelsChangeNothing(h: Heap, v: Val, levels: nat, more: nat)
    requires Fits(h, v, levels) && Fits(h, v, more) && levels <= more
    ensures Unfold(h, v, more) == Unfold(h, v, levels)
    ensures Size(h, v, more) == Size(h, v, levels)
    decreases levels, 0, 0
  {
    if v.Ref? && IsContainer(h(v.id)) {
      MoreLevelsChangeNothingForAll(h, Children(h(v.id)), levels - 1, more - 1);
    }
  }

  lemma {:induction false} MoreLevelsChangeNothingForAll(h: Heap, vs: seq<Val>, levels: nat, more: nat)
    requires forall c :: c in vs ==> Fits(h, c, levels)
    requires (forall c :: c in vs ==> Fits(h, c, more)) && levels <= more
    ensures UnfoldAll(h, vs, more) == UnfoldAll(h, vs, levels)
    ensures SizeAll(h, vs, more) == SizeAll(h, vs, levels)
    decreases levels, 1, |vs|
  {
    if vs != [] {
      MoreLevelsChangeNothing(h, vs[0], levels, more);
      MoreLevelsChangeNothingForAll(h, vs[1..], levels, more);
    }
  }

  lemma SeenStillUnfit(h: Heap, seen: set<Id>, levels: nat)
    requires levels > 0 && forall a :: a in seen ==> !Fits(h, Ref(a), levels)
    ensures forall a :: a in seen ==> !Fits(h, Ref(a), levels - 1)
  {
    forall a | a in seen ensures !Fits(h, Ref(a), levels - 1) {
      if Fits(h, Ref(a), levels - 1) {
        MoreLevelsFit(h, Ref(a), levels - 1, levels);
      }
    }
  }

  /** A value that fits below ancestors that do not fit, with budget for it, is encoded whole. */
  lemma {:induction false} FittingIsComplete(h: Heap, v: Val, levels: nat, depth: nat, seen: set<Id>, left: int)
    requires Fits(h, v, levels) && levels <= Levels(depth) && Size(h, v, levels) <= left
    requires forall a :: a in seen ==> !Fits(h, Ref(a), levels)
    ensures Full(h, v, depth, seen, left).out == Unfold(h, v, levels)
    ensures Full(h, v, depth, seen, left).left == left - Size(h, v, levels)
    decreases levels, 3, 0
  {
    if !v.Ref? || !IsContainer(h(v.id)) {
      LeafIsComplete(h, v, levels, depth, seen, left);
    } else if Fits(h, v, levels - 1) {
      LowIsComplete(h, v, levels, depth, seen, left);
    } else {
      HighIsComplete(h, v.id, levels, depth, seen, left);
    }
  }

  /** A value that needs fewer levels. */
  lemma {:induction false} LowIsComplete(h: Heap, v: Val, levels: nat, depth: nat, seen: set<Id>, left: int)
    requires Fits(h, v, levels) && levels <= Levels(depth) && Size(h, v, levels) <= left
    requires forall a :: a in seen ==> !Fits(h, Ref(a), levels)
    requires levels > 0 && Fits(h, v, levels - 1)
    ensures Full(h, v, depth, seen, left).out == Unfold(h, v, levels)
    ensures Full(h, v, depth, seen, left).left == left - Size(h, v, levels)
    decreases levels, 2, 0
  {
    SeenStillUnfit(h, seen, levels);
    MoreLevelsChangeNothing(h, v, levels - 1, levels);
    FittingIsComplete(h, v, levels - 1, depth, seen, left);
  }

  /** A container that needs all levels is none of its own ancestors, and neither is anything in it. */
  lemma {:induction false} HighIsComplete(h: Heap, id: Id, levels: nat, depth: nat, seen: set<Id>, left: int)
    requires Fits(h, Ref(id), levels) && levels <= Levels(depth) && Size(h, Ref(id), levels) <= left
    requires forall a :: a in seen ==> !Fits(h, Ref(a), levels)
    requires IsContainer(h(id)) && levels > 0 && !Fits(h, Ref(id), levels - 1)
    ensures Full(h, Ref(id), depth, seen, left).out == Unfold(h, Ref(id), levels)
    ensures Full(h, Ref(id), depth, seen, left).left == left - Size(h, Ref(id), levels)
    decreases levels, 2, 0
  {
    SeenStillUnfit(h, seen, levels);
    ChildrenFit(h, id, levels);
    FittingAreComplete(h, Children(h(id)), levels - 1, depth + 1, seen + {id}, left - 1);
    ContainerIsComplete(h, id, levels, depth, seen, left);
  }

  lemma ChildrenFit(h: Heap, id: Id, levels: nat)
    requires Fits(h, Ref(id), levels) && IsContainer(h(id)) && levels > 0
    ensures forall c :: c in Children(h(id)) ==> Fits(h, c, levels - 1)
    ensures Size(h, Ref(id), levels) == 1 + SizeAll(h, Children(h(id)), levels - 1)
  {
  }

  lemma LeafIsComplete(h: Heap, v: Val, levels: nat, depth: nat, seen: set<Id>, left: int)
    requires Fits(h, v, levels) && Size(h, v, levels) <= left && (v.Ref? ==> h(v.id).DateOf? && v.id !in seen)
    ensures Full(h, v, depth, seen, left).out == Unfold(h, v, levels)
    ensures Full(h, v, depth, seen, left).left == left - Size(h, v, levels)
  {
  }

  lemma ContainerIsComplete(h: Heap, id: Id, levels: nat, depth: nat, seen: set<Id>, left: int)
    requires IsContainer(h(id)) && id !in seen && 0 < levels <= Levels(depth) && left > 0 && Fits(h, Ref(id), levels)
    requires var w := FullAll(h, Children(h(id)), depth + 1, seen + {id}, left - 1);
      && w.out == UnfoldAll(h, Children(h(id)), levels - 1)
      && w.left == left - 1 - SizeAll(h, Children(h(id)), levels - 1)
    ensures Full(h, Ref(id), depth, seen, left).out == Unfold(h, Ref(id), levels)
    ensures Full(h, Ref(id), depth, seen, left).left == left - Size(h, Ref(id), levels)
  {
  }

  lemma {:induction false} FittingAreComplete(h: Heap, vs: seq<Val>, levels: nat, depth: nat, seen: set<Id>, left: int)
    requires (forall c :: c in vs ==> Fits(h, c, levels)) && levels <= Levels(depth)
    requires SizeAll(h, vs, levels) <= left
    requires forall a :: a in seen ==> !Fits(h, Ref(a), levels)
    ensures FullAll(h, vs, depth, seen, left).out == UnfoldAll(h, vs, levels)
    ensures FullAll(h, vs, depth, seen, left).left == left - SizeAll(h, vs, levels)
    decreases levels, 4, |vs|
  {
    if vs != [] {
      FirstOfAll(h, vs, levels);
      FittingIsComplete(h, vs[0], levels, depth, seen, left);
      FittingAreComplete(h, vs[1..], levels, depth, seen, left - Size(h, vs[0], levels));
    }
  }

  lemma FirstOfAll(h: Heap, vs: seq<Val>, levels: nat)
    requires vs != [] && forall c :: c in vs ==> Fits(h, c, levels)
    ensures Fits(h, vs[0], levels) && forall c :: c in vs[1..] ==> Fits(h, c, levels)
    ensures SizeAll(h, vs, levels) == Size(h, vs[0], levels) + SizeAll(h, vs[1..], levels)
    ensures UnfoldAll(h, vs, levels) == [Unfold(h, vs[0], levels)] + UnfoldAll(h, vs[1..], levels)
  {
  }

  /** No marker stands anywhere in the description. */
  predicate Whole(d: Desc)
  {
    match d
    case DCutText(_, _) => false
    case DUnreadable => false
    case DElided(_) => false
    case DCycle => false
    case DArray(items, cut) => cut.None? && forall c :: c in items ==> Whole(c)
    case DMap(entries, size) => |entries| == 2 * size && forall c :: c in entries ==> Whole(c)
    case DSet(items, size) => |items| == size && forall c :: c in items ==> Whole(c)
    case DObject(_, values, cut, _) => cut.None? && forall c :: c in values ==> Whole(c)
    case _ => true
  }

  lemma RebuildIsWhole(o: Obj, outs: seq<Desc>)
    requires IsContainer(o) && |outs| == |Children(o)|
    ensures Whole(Rebuild(o, outs)) <==> EntryCount(o) <= FULL_MAX_ENTRIES && forall c :: c in outs ==> Whole(c)
  {
  }

  lemma {:induction false} WholeMeansFitting(h: Heap, v: Val, depth: nat, seen: set<Id>, left: int)
    requires Whole(Full(h, v, depth, seen, left).out)
    ensures Fits(h, v, Levels(depth)) && Size(h, v, Levels(depth)) <= left
    ensures Full(h, v, depth, seen, left).left == left - Size(h, v, Levels(depth))
    decreases Levels(depth), 1, 0
  {
    if v.Ref? {
      assert Full(h, v, depth, seen, left).out == Structure(h, v.id, depth, seen, left - 1).out;
    }
    if v.Ref? && IsContainer(h(v.id)) {
      var w := FullAll(h, Children(h(v.id)), depth + 1, seen + {v.id}, left - 1);
      RebuildIsWhole(h(v.id), w.out);
      WholeMeansAllFitting(h, Children(h(v.id)), depth + 1, seen + {v.id}, left - 1);
    }
  }

  lemma {:induction false} WholeMeansAllFitting(h: Heap, vs: seq<Val>, depth: nat, seen: set<Id>, left: int)
    requires forall c :: c in FullAll(h, vs, depth, seen, left).out ==> Whole(c)
    requires left >= 0
    ensures forall c :: c in vs ==> Fits(h, c, Levels(depth))
    ensures SizeAll(h, vs, Levels(depth)) <= left
    ensures FullAll(h, vs, depth, seen, left).left == left - SizeAll(h, vs, Levels(depth))
    decreases Levels(depth), 2, |vs|
  {
    if vs != [] {
      var w := FullAll(h, vs, depth, seen, left);
      var first := Full(h, vs[0], depth, seen, left);
      assert w.out[0] == first.out && w.out[1..] == FullAll(h, vs[1..], depth, seen, first.left).out;
      assert first.out in w.out;
      WholeMeansFitting(h, vs[0], depth, seen, left);
      forall c | c in w.out[1..] ensures Whole(c) {
        assert c in w.out;
      }
      WholeMeansAllFitting(h, vs[1..], depth, seen, first.left);
    }
  }

  /** An encoding carries no marker exactly when the value fits all bounds, and then it is the complete
      unfolding: an acyclic value within bounds, shared objects and all, is never cut. */
  lemma WholeIffWithinBounds(h: Heap, v: Val, budget: nat)
    ensures Whole(Full(h, v, 0, {}, budget).out)
       <==> Fits(h, v, FULL_MAX_DEPTH) && Size(h, v, FULL_MAX_DEPTH) <= budget
    ensures Fits(h, v, FULL_MAX_DEPTH) && Size(h, v, FULL_MAX_DEPTH) <= budget ==>
      Full(h, v, 0, {}, budget).out == Unfold(h, v, FULL_MAX_DEPTH)
  {
    if Fits(h, v, FULL_MAX_DEPTH) && Size(h, v, FULL_MAX_DEPTH) <= budget {
      FittingIsComplete(h, v, FULL_MAX_DEPTH, 0, {}, budget);
      UnfoldIsWhole(h, v, FULL_MAX_DEPTH);
    }
    if Whole(Full(h, v, 0, {}, budget).out) {
      WholeMeansFitting(h, v, 0, {}, budget);
    }
  }

  lemma {:induction false} UnfoldIsWhole(h: Heap, v: Val, levels: nat)
    requires Fits(h, v, levels)
    ensures Whole(Unfold(h, v, levels))
    decreases levels, 0, 0
  {
    if v.Ref? && IsContainer(h(v.id)) {
      UnfoldAllIsWhole(h, Children(h(v.id)), levels - 1);
      RebuildIsWhole(h(v.id), UnfoldAll(h, Children(h(v.id)), levels - 1));
    }
  }

  lemma {:induction false} UnfoldAllIsWhole(h: Heap, vs: seq<Val>, levels: nat)
    requires forall c :: c in vs ==> Fits(h, c, levels)
    ensures forall d :: d in UnfoldAll(h, vs, levels) ==> Whole(d)
    decreases levels, 1, |vs|
  {
    if vs != [] {
      UnfoldIsWhole(h, vs[0], levels);
      UnfoldAllIsWhole(h, vs[1..], levels);
    }
  }

  // ---------------------------------------------------------------- what a description says

  /** How many of `n` entries are described. */
  function Shown(n: nat): nat { if n <= FULL_MAX_ENTRIES then n else FULL_MAX_ENTRIES }

  /** The description tells the value below the objects `above`, of which the walk is inside: what it
      shows is the value's own content, and what it leaves out is left out for the reason it gives. */
  predicate Depicts(h: Heap, d: Desc, v: Val, above: set<Id>, depth: nat, spent: bool)
    decreases d, 1
  {
    if d == DElided(ByBudget) then spent
    else
      match v
      case Nullish => d == DNull
      case Scalar(r) => d == DScalar(r)
      case BigInt(r) => d == DOpaque("bigint:" + r)
      case Function(name) => d == DOpaque("function:" + if name == "" then "anonymous" else name)
      case Symbol(r) => d == DOpaque(r)
      case Text(s) =>
        || (d == DText(s) && |s| <= FULL_MAX_STRING_LENGTH)
        || (d.DCutText? && d.length == |s| > FULL_MAX_STRING_LENGTH == |d.head| && d.head <= s)
      case Ref(id) =>
        if id in above then d == DCycle
        else if h(id).DateOf? then d == (match h(id).iso case Some(iso) => DDate(iso) case None => DUnreadable)
        else if depth >= FULL_MAX_DEPTH then d == DElided(ByDepth)
        else DepictsObject(h, d, h(id), above + {id}, depth + 1, spent)
  }

  /** Entry by entry in the object's own order, as many as are shown, and the true count where it is cut. */
  predicate DepictsObject(h: Heap, d: Desc, o: Obj, above: set<Id>, depth: nat, spent: bool)
    decreases d, 0
  {
    match o
    case ArrayOf(items) =>
      && d.DArray? && |d.items| == Shown(|items|)
      && (if |items| == |d.items| then d.cut.None? else d.cut == Some(|items|))
      && forall i :: 0 <= i < |d.items| ==> Depicts(h, d.items[i], items[i], above, depth, spent)
    case SetOf(items) =>
      && d.DSet? && |d.items| == Shown(|items|) && d.size == |items|
      && forall i :: 0 <= i < |d.items| ==> Depicts(h, d.items[i], items[i], above, depth, spent)
    case MapOf(entries) =>
      && d.DMap? && |d.entries| == 2 * Shown(|entries|) && d.size == |entries|
      && forall i :: 0 <= i < Shown(|entries|) ==>
           && Depicts(h, d.entries[2 * i], entries[i].0, above, depth, spent)
           && Depicts(h, d.entries[2 * i + 1], entries[i].1, above, depth, spent)
    case Plain(fields, className) =>
      && d.DObject? && |d.keys| == |d.values| == Shown(|fields|) && d.className == className
      && (if |fields| == |d.keys| then d.cut.None? else d.cut == Some(|fields|))
      && forall i :: 0 <= i < |d.keys| ==>
           d.keys[i] == fields[i].0 && Depicts(h, d.values[i], fields[i].1, above, depth, spent)
    case DateOf(_) => false
  }

  /** On every heap the walk describes what is there, and leaves out for want of budget only when none is left. */
  lemma {:induction false} FullDepicts(h: Heap, v: Val, depth: nat, seen: set<Id>, left: int, spent: bool)
    requires Full(h, v, depth, seen, left).left <= 0 ==> spent
    ensures Depicts(h, Full(h, v, depth, seen, left).out, v, seen, depth, spent)
    decreases Levels(depth), 1, 0
  {
    if v.Ref? && v.id !in seen && IsContainer(h(v.id)) && depth < FULL_MAX_DEPTH && left > 0 {
      var o, below := h(v.id), seen + {v.id};
      var w := FullAll(h, Children(o), depth + 1, below, left - 1);
      OpenedIs(h, v.id, depth, seen, left);
      AllDepicted(h, Children(o), depth + 1, below, left - 1, spent);
      RebuildDepicts(h, o, w.out, below, depth + 1, spent);
    } else {
      LeafDepicts(h, v, depth, seen, left, spent);
    }
  }

  lemma OpenedIs(h: Heap, id: Id, depth: nat, seen: set<Id>, left: int)
    requires id !in seen && IsContainer(h(id)) && depth < FULL_MAX_DEPTH && left > 0
    ensures var w := FullAll(h, Children(h(id)), depth + 1, seen + {id}, left - 1);
      Full(h, Ref(id), depth, seen, left) == Walked(Rebuild(h(id), w.out), w.left, w.calls + 1)
  {
  }

  lemma LeafDepicts(h: Heap, v: Val, depth: nat, seen: set<Id>, left: int, spent: bool)
    requires Full(h, v, depth, seen, left).left <= 0 ==> spent
    requires v.Ref? && v.id !in seen && IsContainer(h(v.id)) && depth < FULL_MAX_DEPTH ==> left <= 0
    ensures Depicts(h, Full(h, v, depth, seen, left).out, v, seen, depth, spent)
  {
    if left > 0 && v.Ref? {
      assert Full(h, v, depth, seen, left).out == Structure(h, v.id, depth, seen, left - 1).out;
    }
  }

  predicate Depicted(h: Heap, outs: seq<Desc>, vs: seq<Val>, above: set<Id>, depth: nat, spent: bool)
    requires |outs| == |vs|
  {
    forall k :: 0 <= k < |vs| ==> Depicts(h, outs[k], vs[k], above, depth, spent)
  }

  lemma {:induction false} AllDepicted(h: Heap, vs: seq<Val>, depth: nat, seen: set<Id>, left: int, spent: bool)
    requires FullAll(h, vs, depth, seen, left).left <= 0 ==> spent
    ensures Depicted(h, FullAll(h, vs, depth, seen, left).out, vs, seen, depth, spent)
    decreases Levels(depth), 2, |vs|
  {
    if vs != [] {
      var first := Full(h, vs[0], depth, seen, left);
      UnpaidCallsOfAll(h, vs[1..], depth, seen, first.left);
      FullDepicts(h, vs[0], depth, seen, left, spent);
      AllDepicted(h, vs[1..], depth, seen, first.left, spent);
    }
  }

  lemma {:induction false} FlattenedAt(entries: seq<(Val, Val)>, i: nat)
    requires i < |entries|
    ensures Flatten(entries)[2 * i] == entries[i].0 && Flatten(entries)[2 * i + 1] == entries[i].1
  {
    if i > 0 {
      FlattenedAt(entries[1..], i - 1);
    }
  }

  lemma RebuildDepicts(h: Heap, o: Obj, outs: seq<Desc>, above: set<Id>, depth: nat, spent: bool)
    requires IsContainer(o) && |outs| == |Children(o)| && Depicted(h, outs, Children(o), above, depth, spent)
    ensures DepictsObject(h, Rebuild(o, outs), o, above, depth, spent)
  {
    match o
    case MapOf(entries) =>
      forall i | 0 <= i < Shown(|entries|)
        ensures Depicts(h, outs[2 * i], entries[i].0, above, depth, spent)
        ensures Depicts(h, outs[2 * i + 1], entries[i].1, above, depth, spent)
      {
        FlattenedAt(Kept(entries), i);
        assert Children(o)[2 * i] == entries[i].0 && Children(o)[2 * i + 1] == entries[i].1;
      }
    case ArrayOf(items) =>
    case SetOf(items) =>
    case Plain(fields, _) =>
  }

  predicate IsOpaque(v: Val) { v.BigInt? || v.Function? || v.Symbol? }

  /** Two values, each in its own heap, are alike down to so many levels: same contents, in the same order.  All that
      is not told is whether an opaque value is a symbol that happens to be named as another kind's rendering. */
  predicate Alike(h: Heap, v: Val, g: Heap, w: Val, levels: nat)
    decreases levels, 1
  {
    match (v, w)
    case (Nullish, Nullish) => true
    case (Scalar(a), Scalar(b)) => a == b
    case (Text(a), Text(b)) => a == b
    case (BigInt(a), BigInt(b)) => a == b
    case (Symbol(a), Symbol(b)) => a == b
    case (Function(a), Function(b)) => a == b || (a == "" && b == "anonymous") || (a == "anonymous" && b == "")
    case (Ref(a), Ref(b)) => levels > 0 ==> AlikeObjects(h, h(a), g, g(b), levels - 1)
    case _ => IsOpaque(v) && IsOpaque(w) && (v.Symbol? || w.Symbol?)
  }

  predicate AlikeObjects(h: Heap, o: Obj, g: Heap, p: Obj, levels: nat)
    decreases levels, 2
  {
    match (o, p)
    case (ArrayOf(a), ArrayOf(b)) => |a| == |b| && forall i :: 0 <= i < |a| ==> Alike(h, a[i], g, b[i], levels)
    case (SetOf(a), SetOf(b)) => |a| == |b| && forall i :: 0 <= i < |a| ==> Alike(h, a[i], g, b[i], levels)
    case (MapOf(a), MapOf(b)) =>
      |a| == |b| && forall i :: 0 <= i < |a| ==>
        Alike(h, a[i].0, g, b[i].0, levels) && Alike(h, a[i].1, g, b[i].1, levels)
    case (Plain(a, c), Plain(b, d)) =>
      && |a| == |b| && c == d
      && forall i :: 0 <= i < |a| ==> a[i].0 == b[i].0 && Alike(h, a[i].1, g, b[i].1, levels)
    case (DateOf(a), DateOf(b)) => a == b
    case _ => false
  }

  lemma {:induction false} DepictedAlike(h: Heap, v: Val, a: set<Id>, g: Heap, w: Val, b: set<Id>, depth: nat, d: Desc,
                                         levels: nat)
    requires Whole(d) && Depicts(h, d, v, a, depth, true) && Depicts(g, d, w, b, depth, true)
    ensures Alike(h, v, g, w, levels)
    decreases levels, 1
  {
    if v.Ref? {
      if levels > 0 && IsContainer(h(v.id)) {
        DepictedObjectsAlike(h, h(v.id), a + {v.id}, g, g(w.id), b + {w.id}, depth + 1, d, levels - 1);
      }
    } else {
      LeavesAlike(h, v, a, g, w, b, depth, d, levels);
    }
  }

  lemma LeavesAlike(h: Heap, v: Val, a: set<Id>, g: Heap, w: Val, b: set<Id>, depth: nat, d: Desc, levels: nat)
    requires Whole(d) && Depicts(h, d, v, a, depth, true) && Depicts(g, d, w, b, depth, true) && !v.Ref?
    ensures Alike(h, v, g, w, levels)
  {
    match (v, w)
    case (BigInt(x), BigInt(y)) => SameTail("bigint:", x, y);
    case (Function(x), Function(y)) =>
      SameTail("function:", if x == "" then "anonymous" else x, if y == "" then "anonymous" else y);
    case (BigInt(x), Function(y)) => OtherHead(x, if y == "" then "anonymous" else y);
    case (Function(x), BigInt(y)) => OtherHead(y, if x == "" then "anonymous" else x);
    case _ =>
  }

  lemma OtherHead(a: string, b: string)
    ensures "bigint:" + a != "function:" + b
  {
    assert ("bigint:" + a)[0] != ("function:" + b)[0];
  }

  lemma SameTail(prefix: string, a: string, b: string)
    requires prefix + a == prefix + b
    ensures a == b
  {
    assert a == (prefix + a)[|prefix|..] && b == (prefix + b)[|prefix|..];
  }

  lemma {:induction false} DepictedObjectsAlike(h: Heap, o: Obj, a: set<Id>, g: Heap, p: Obj, b: set<Id>, depth: nat,
                                                d: Desc, levels: nat)
    requires Whole(d) && DepictsObject(h, d, o, a, depth, true) && DepictsObject(g, d, p, b, depth, true)
    ensures AlikeObjects(h, o, g, p, levels)
    decreases levels, 2
  {
    match (o, p)
    case (ArrayOf(x), ArrayOf(y)) =>
      forall i | 0 <= i < |x| ensures Alike(h, x[i], g, y[i], levels) {
        DepictedAlike(h, x[i], a, g, y[i], b, depth, d.items[i], levels);
      }
    case (SetOf(x), SetOf(y)) =>
      forall i | 0 <= i < |x| ensures Alike(h, x[i], g, y[i], levels) {
        DepictedAlike(h, x[i], a, g, y[i], b, depth, d.items[i], levels);
      }
    case (MapOf(x), MapOf(y)) =>
      forall i | 0 <= i < |x| ensures Alike(h, x[i].0, g, y[i].0, levels) && Alike(h, x[i].1, g, y[i].1, levels) {
        DepictedAlike(h, x[i].0, a, g, y[i].0, b, depth, d.entries[2 * i], levels);
        DepictedAlike(h, x[i].1, a, g, y[i].1, b, depth, d.entries[2 * i + 1], levels);
      }
    case (Plain(x, _), Plain(y, _)) =>
      forall i | 0 <= i < |x| ensures x[i].0 == y[i].0 && Alike(h, x[i].1, g, y[i].1, levels) {
        DepictedAlike(h, x[i].1, a, g, y[i].1, b, depth, d.values[i], levels);
      }
    case _ =>
  }

  /** A description without markers determines the value: two walks that give the same one walked values alike at every
      level, whatever heaps they live in. */
  lemma WholeDeterminesValue(h: Heap, v: Val, g: Heap, w: Val, budget: nat, other: nat, levels: nat)
    requires Whole(Full(h, v, 0, {}, budget).out) && Full(h, v, 0, {}, budget).out == Full(g, w, 0, {}, other).out
    ensures Alike(h, v, g, w, levels)
  {
    FullDepicts(h, v, 0, {}, budget, true);
    FullDepicts(g, w, 0, {}, other, true);
    DepictedAlike(h, v, {}, g, w, {}, 0, Full(h, v, 0, {}, budget).out, levels);
  }

  // ---------------------------------------------------------------- cycle markers

  predicate MarksCycle(d: Desc)
  {
    match d
    case DCycle => true
    case DArray(items, _) => exists c :: c in items && MarksCycle(c)
    case DMap(entries, _) => exists c :: c in entries && MarksCycle(c)
    case DSet(items, _) => exists c :: c in items && MarksCycle(c)
    case DObject(_, values, _, _) => exists c :: c in values && MarksCycle(c)
    case _ => false
  }

  /** Each object holds the next. */
  predicate Chain(h: Heap, path: seq<Id>)
  {
    forall i :: 0 <= i < |path| - 1 ==> Ref(path[i + 1]) in Children(h(path[i]))
  }

  /** A chain from `v`, short enough to be walked, that ends in an ancestor or in one of its own
      earlier objects. */
  predicate ClosesCycle(h: Heap, v: Val, path: seq<Id>, depth: nat, seen: set<Id>)
  {
    && path != [] && v == Ref(path[0]) && Chain(h, path) && |path| - 1 <= Levels(depth)
    && (path[|path| - 1] in seen || path[|path| - 1] in path[..|path| - 1])
  }

  lemma {:induction false} CycleMarkIsReal(h: Heap, v: Val, depth: nat, seen: set<Id>, left: int)
    returns (path: seq<Id>)
    requires MarksCycle(Full(h, v, depth, seen, left).out)
    ensures ClosesCycle(h, v, path, depth, seen)
    decreases Levels(depth), 1, 0
  {
    path := [v.id];
    assert Full(h, v, depth, seen, left).out == Structure(h, v.id, depth, seen, left - 1).out;
    if v.id !in seen {
      var below := seen + {v.id};
      var k, rest := CycleMarkAmongIsReal(h, Children(h(v.id)), depth + 1, below, left - 1);
      ChildClosesCycle(h, v.id, k, rest, depth, seen);
      path := [v.id] + rest;
    }
  }

  lemma ChildClosesCycle(h: Heap, id: Id, k: nat, rest: seq<Id>, depth: nat, seen: set<Id>)
    requires k < |Children(h(id))| && depth < FULL_MAX_DEPTH
    requires ClosesCycle(h, Children(h(id))[k], rest, depth + 1, seen + {id})
    ensures ClosesCycle(h, Ref(id), [id] + rest, depth, seen)
  {
    var path := [id] + rest;
    assert Ref(path[1]) in Children(h(path[0]));
    assert path[|path| - 1] == rest[|rest| - 1];
    assert path[..|path| - 1] == [id] + rest[..|rest| - 1];
  }

  lemma {:induction false} CycleMarkAmongIsReal(h: Heap, vs: seq<Val>, depth: nat, seen: set<Id>, left: int)
    returns (k: nat, path: seq<Id>)
    requires exists c :: c in FullAll(h, vs, depth, seen, left).out && MarksCycle(c)
    ensures k < |vs| && ClosesCycle(h, vs[k], path, depth, seen)
    decreases Levels(depth), 2, |vs|
  {
    var first := Full(h, vs[0], depth, seen, left);
    if MarksCycle(first.out) {
      k := 0;
      path := CycleMarkIsReal(h, vs[0], depth, seen, left);
    } else {
      var rest := FullAll(h, vs[1..], depth, seen, first.left);
      var c :| c in FullAll(h, vs, depth, seen, left).out && MarksCycle(c);
      assert c in rest.out;
      k, path := CycleMarkAmongIsReal(h, vs[1..], depth, seen, first.left);
      k := k + 1;
    }
  }

  lemma {:induction false} CycleIsMarked(h: Heap, v: Val, path: seq<Id>, depth: nat, seen: set<Id>, left: int)
    requires ClosesCycle(h, v, path, depth, seen)
    requires Full(h, v, depth, seen, left).left > 0
    ensures MarksCycle(Full(h, v, depth, seen, left).out)
    decreases |path|
  {
    UnpaidCalls(h, v, depth, seen, left);
    if v.id !in seen {
      var below := seen + {v.id};
      var vs := Children(h(v.id));
      var k := CycleGoesOn(h, v, path, depth, seen);
      var entry := BudgetAt(h, vs, depth + 1, below, left - 1, k);
      CycleIsMarked(h, vs[k], path[1..], depth + 1, below, entry);
      RebuildMarks(h(v.id), FullAll(h, vs, depth + 1, below, left - 1).out, k);
    }
  }

  lemma RebuildMarks(o: Obj, outs: seq<Desc>, k: nat)
    requires IsContainer(o) && |outs| == |Children(o)| && k < |outs| && MarksCycle(outs[k])
    ensures MarksCycle(Rebuild(o, outs))
  {
    assert outs[k] in outs;
  }

  /** A cycle that does not close at once closes below a child. */
  lemma CycleGoesOn(h: Heap, v: Val, path: seq<Id>, depth: nat, seen: set<Id>) returns (k: nat)
    requires ClosesCycle(h, v, path, depth, seen) && v.id !in seen
    ensures |path| > 1 && k < |Children(h(v.id))|
    ensures ClosesCycle(h, Children(h(v.id))[k], path[1..], depth + 1, seen + {v.id})
  {
    var vs := Children(h(v.id));
    assert Ref(path[1]) in vs;
    k :| 0 <= k < |vs| && vs[k] == Ref(path[1]);
    forall i | 0 <= i < |path[1..]| - 1 ensures Ref(path[1..][i + 1]) in Children(h(path[1..][i])) {
      assert path[1..][i + 1] == path[i + 2] && path[1..][i] == path[i + 1];
    }
    assert path[..|path| - 1] == [v.id] + path[1..][..|path| - 2];
  }

  /** The budget with which child `k` is entered. */
  lemma {:induction false} BudgetAt(h: Heap, vs: seq<Val>, depth: nat, seen: set<Id>, left: int, k: nat)
    returns (entry: int)
    requires k < |vs| && FullAll(h, vs, depth, seen, left).left > 0
    ensures FullAll(h, vs, depth, seen, left).out[k] == Full(h, vs[k], depth, seen, entry).out
    ensures Full(h, vs[k], depth, seen, entry).left > 0
    decreases |vs|
  {
    var first := Full(h, vs[0], depth, seen, left);
    UnpaidCalls(h, vs[0], depth, seen, left);
    UnpaidCallsOfAll(h, vs[1..], depth, seen, first.left);
    if k == 0 {
      entry := left;
    } else {
      entry := BudgetAt(h, vs[1..], depth, seen, first.left, k - 1);
    }
  }

  /** While budget remains, a cycle is marked exactly when some chain of at most 24 steps from the value
      comes back to itself; shared objects alone are never marked. */
  lemma MarkedIffCyclic(h: Heap, v: Val, budget: nat)
    requires Full(h, v, 0, {}, budget).left > 0
    ensures MarksCycle(Full(h, v, 0, {}, budget).out) <==> exists path :: ClosesCycle(h, v, path, 0, {})
  {
    if MarksCycle(Full(h, v, 0, {}, budget).out) {
      var path := CycleMarkIsReal(h, v, 0, {}, budget);
    }
    if exists path :: ClosesCycle(h, v, path, 0, {}) {
      var path :| ClosesCycle(h, v, path, 0, {});
      CycleIsMarked(h, v, path, 0, {}, budget);
    }
  }

  // ---------------------------------------------------------------- the source's functions

  class Budget {
    var remaining: int

    constructor (remaining: int)
      ensures this.remaining == remaining
    {
      this.remaining := remaining;
    }
  }

  /** The ancestor path: the objects the walk is inside of. */
  class Ancestors {
    var items: set<Id>

    constructor ()
      ensures items == {}
    {
      items := {};
    }
  }

  /** `describeFull`. */
  method DescribeFull(h: Heap, value: Val, depth: nat, seen: Ancestors, budget: Budget) returns (out: Desc)
    modifies seen, budget
    ensures seen.items == old(seen.items)
    ensures out == Full(h, value, depth, old(seen.items), old(budget.remaining)).out
    ensures budget.remaining == Full(h, value, depth, old(seen.items), old(budget.remaining)).left
    decreases Levels(depth), 1
  {
    if budget.remaining <= 0 {
      return DElided(ByBudget);
    }
    budget.remaining := budget.remaining - 1;
    if value.Ref? {
      out := DescribeFullStructure(h, value.id, depth, seen, budget);
    } else {
      out := DescribePrimitive(value);
    }
  }

  /** `describeFullStructureUnguarded`: marks the object as an ancestor only while inside it. */
  method DescribeFullStructure(h: Heap, id: Id, depth: nat, seen: Ancestors, budget: Budget) returns (out: Desc)
    modifies seen, budget
    ensures seen.items == old(seen.items)
    ensures out == Structure(h, id, depth, old(seen.items), old(budget.remaining)).out
    ensures budget.remaining == Structure(h, id, depth, old(seen.items), old(budget.remaining)).left
    decreases Levels(depth), 0
  {
    if id in seen.items {
      return DCycle;
    }
    var o := h(id);
    if o.DateOf? {
      return if o.iso.Some? then DDate(o.iso.value) else DUnreadable;
    }
    if depth >= FULL_MAX_DEPTH {
      return DElided(ByDepth);
    }
    seen.items := seen.items + {id};
    var outs: seq<Desc> := [];
    var vs := Children(o);
    ghost var inside, start := seen.items, budget.remaining;
    for i := 0 to |vs|
      invariant seen.items == inside && |outs| == i
      invariant EncodedSoFar(h, vs, i, depth + 1, inside, start, outs, budget.remaining)
    {
      EncodedStep(h, vs, i, depth + 1, inside, start, outs, budget.remaining);
      var encoded := DescribeFull(h, vs[i], depth + 1, seen, budget);
      outs := outs + [encoded];
    }
    EncodedAll(h, vs, depth + 1, inside, start, outs, budget.remaining);
    out := Rebuild(o, outs);
    seen.items := seen.items - {id};
  }

  /** The loop over the children has reached child `i`. */
  ghost predicate EncodedSoFar(h: Heap, vs: seq<Val>, i: nat, depth: nat, seen: set<Id>, start: int, outs: seq<Desc>,
                               left: int)
    requires i <= |vs|
  {
    && FullAll(h, vs, depth, seen, start).out == outs + FullAll(h, vs[i..], depth, seen, left).out
    && FullAll(h, vs, depth, seen, start).left == FullAll(h, vs[i..], depth, seen, left).left
  }

  lemma EncodedStep(h: Heap, vs: seq<Val>, i: nat, depth: nat, seen: set<Id>, start: int, outs: seq<Desc>, left: int)
    requires i < |vs| && EncodedSoFar(h, vs, i, depth, seen, start, outs, left)
    ensures var one := Full(h, vs[i], depth, seen, left);
      EncodedSoFar(h, vs, i + 1, depth, seen, start, outs + [one.out], one.left)
  {
    var one := Full(h, vs[i], depth, seen, left);
    assert vs[i..][1..] == vs[i + 1..];
    var rest := FullAll(h, vs[i + 1..], depth, seen, one.left).out;
    assert outs + ([one.out] + rest) == (outs + [one.out]) + rest;
  }

  lemma EncodedAll(h: Heap, vs: seq<Val>, depth: nat, seen: set<Id>, start: int, outs: seq<Desc>, left: int)
    requires EncodedSoFar(h, vs, |vs|, depth, seen, start, outs, left)
    ensures FullAll(h, vs, depth, seen, start).out == outs && FullAll(h, vs, depth, seen, start).left == left
  {
    assert vs[|vs|..] == [];
    assert outs + [] == outs;
  }
}
