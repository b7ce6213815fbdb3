/** The canonical key encoder of packages/core/src/keys/key.ts.

    A node's identity is the text this encoder prints, so two inputs must print alike
    exactly when they denote the same document.  The proof is a parser that inverts the
    printer.  Texts are sequences of 16-bit code units, as in JavaScript. */
module CanonicalKey {
  import opened Prelude

  type Unit = n: nat | n < 0x1_0000

  type Text = seq<Unit>

  const QUOTE: Unit := 0x22
  const BACKSLASH: Unit := 0x5C
  const COMMA: Unit := 0x2C
  const COLON: Unit := 0x3A
  const OPEN_BRACKET: Unit := 0x5B
  const CLOSE_BRACKET: Unit := 0x5D
  const OPEN_BRACE: Unit := 0x7B
  const CLOSE_BRACE: Unit := 0x7D
  const UNDEFINED_WORD: Text := [0x75, 0x6E, 0x64, 0x65, 0x66, 0x69, 0x6E, 0x65, 0x64]
  const NULL_WORD: Text := [0x6E, 0x75, 0x6C, 0x6C]
  const TRUE_WORD: Text := [0x74, 0x72, 0x75, 0x65]
  const FALSE_WORD: Text := [0x66, 0x61, 0x6C, 0x73, 0x65]
  const ZERO_TOKEN: Text := [0x30]
  /** "v1:" */
  const VERSION_PREFIX: Text := [0x76, 0x31, 0x3A]
  const MAX_CANONICAL_KEY_LENGTH := 2048

  // ---------------------------------------------------------------- inputs

  /** The input of the encoder.  `Unsupported` stands for functions, symbols, bigints and class
      instances; a finite number is the token JavaScript renders it as. */
  datatype Value =
    | Undefined
    | Null
    | Bool(b: bool)
    | Number(number: Numeral)
    | Str(text: Text)
    | Array(slots: seq<Slot>)
    | Object(fields: seq<Field>)
    | Unsupported

  datatype Slot = Hole | Item(value: Value)

  datatype Field = Field(key: Text, value: Value)

  datatype Numeral = NonFinite | NegativeZero | Finite(token: Token)

  type Token = t: Text | IsToken(t) witness [0x30]

  predicate IsDigit(u: Unit) { 0x30 <= u <= 0x39 }

  predicate StartsNumber(u: Unit) { IsDigit(u) || u == 0x2D }

  /** Digits, sign, point and exponent marker. */
  predicate InNumber(u: Unit) { IsDigit(u) || u == 0x2B || u == 0x2D || u == 0x2E || u == 0x65 }

  predicate IsToken(t: Text) { t != [] && StartsNumber(t[0]) && forall u :: u in t ==> InNumber(u) }

  predicate DistinctKeys(fields: seq<Field>)
  {
    forall i, j :: 0 <= i < j < |fields| ==> fields[i].key != fields[j].key
  }

  /** A JavaScript object never has two own properties with one key. */
  predicate Valid(v: Value)
  {
    match v
    case Array(slots) => forall s :: s in slots && s.Item? ==> Valid(s.value)
    case Object(fields) => DistinctKeys(fields) && forall f :: f in fields ==> Valid(f.value)
    case _ => true
  }

  /** JSON-shaped throughout, with finite numbers only. */
  predicate Supported(v: Value)
  {
    match v
    case Unsupported => false
    case Number(n) => !n.NonFinite?
    case Array(slots) => forall s :: s in slots && s.Item? ==> Supported(s.value)
    case Object(fields) => forall f :: f in fields ==> Supported(f.value)
    case _ => true
  }

  // ------------------------------------------------------ what an input means

  /** A document: key order is gone, holes are undefined and there is one zero. */
  datatype Doc =
    | DUndefined
    | DNull
    | DBool(b: bool)
    | DNumber(token: Text)
    | DString(text: Text)
    | DArray(items: seq<Doc>)
    | DObject(entries: map<Text, Doc>)

  function Denote(v: Value): Doc
    requires Supported(v)
    decreases v, 1
  {
    match v
    case Undefined => DUndefined
    case Null => DNull
    case Bool(b) => DBool(b)
    case Number(n) => DNumber(if n.NegativeZero? then ZERO_TOKEN else n.token)
    case Str(text) => DString(text)
    case Array(slots) => DArray(DenoteSlots(slots))
    case Object(fields) => DObject(DenoteFields(fields))
  }

  function DenoteSlot(s: Slot): Doc
    requires s.Item? ==> Supported(s.value)
    decreases s, 2
  {
    match s
    case Hole => DUndefined
    case Item(v) => Denote(v)
  }

  function DenoteSlots(slots: seq<Slot>): (docs: seq<Doc>)
    requires forall s :: s in slots && s.Item? ==> Supported(s.value)
    ensures |docs| == |slots|
    decreases slots, 0
  {
    if slots == [] then [] else [DenoteSlot(slots[0])] + DenoteSlots(slots[1..])
  }

  function DenoteFields(fields: seq<Field>): map<Text, Doc>
    requires forall f :: f in fields ==> Supported(f.value)
    decreases fields, 0
  {
    if fields == [] then map[]
    else DenoteFields(fields[1..])[fields[0].key := Denote(fields[0].value)]
  }

  // ------------------------------------------------------------ key order

  /** Order of two keys by code units, as `Array.prototype.sort` compares strings. */
  predicate Before(a: Text, b: Text)
  {
    if b == [] then false
    else if a == [] then true
    else a[0] < b[0] || (a[0] == b[0] && Before(a[1..], b[1..]))
  }

  /** At place `i`, the first where they differ, `a` has the smaller unit or has come to its end. */
  predicate LessAt(a: Text, b: Text, i: nat)
  {
    i <= |a| && i < |b| && a[..i] == b[..i] && (i == |a| || a[i] < b[i])
  }

  ghost predicate Less(a: Text, b: Text) { exists i: nat :: LessAt(a, b, i) }

  lemma SameHead(a: Text, b: Text, i: nat)
    requires LessAt(a, b, i) && a != []
    ensures i > 0 ==> a[0] == b[0]
  {
    if i > 0 {
      assert a[0] == a[..i][0] && b[0] == b[..i][0];
    }
  }

  /** The order is told by the first unit in which two keys differ. */
  lemma {:induction false} BeforeIff(a: Text, b: Text)
    ensures Before(a, b) <==> Less(a, b)
  {
    if b == [] {
    } else if a == [] {
      assert LessAt(a, b, 0);
    } else if a[0] != b[0] {
      forall i: nat | LessAt(a, b, i) ensures i == 0 {
        SameHead(a, b, i);
      }
      assert a[0] < b[0] ==> LessAt(a, b, 0);
    } else {
      BeforeIff(a[1..], b[1..]);
      forall i: nat | LessAt(a[1..], b[1..], i) ensures LessAt(a, b, i + 1) {
        assert a[..i + 1] == [a[0]] + a[1..][..i] && b[..i + 1] == [b[0]] + b[1..][..i];
      }
      forall i: nat | LessAt(a, b, i) ensures i > 0 && LessAt(a[1..], b[1..], i - 1) {
        assert a[1..][..i - 1] == a[..i][1..] && b[1..][..i - 1] == b[..i][1..];
      }
    }
  }

  lemma {:induction false} BeforeIsTotal(a: Text, b: Text)
    ensures !(Before(a, b) && Before(b, a))
    ensures Before(a, b) || Before(b, a) || a == b
    ensures a == b ==> !Before(a, b)
  {
    if a != [] && b != [] {
      BeforeIsTotal(a[1..], b[1..]);
      assert a == [a[0]] + a[1..] && b == [b[0]] + b[1..];
    }
  }

  lemma {:induction false} BeforeIsTransitive(a: Text, b: Text, c: Text)
    requires Before(a, b) && Before(b, c)
    ensures Before(a, c)
  {
    if a != [] && a[0] == b[0] == c[0] {
      BeforeIsTransitive(a[1..], b[1..], c[1..]);
    }
  }

  predicate Ascending(fields: seq<Field>)
  {
    forall i, j :: 0 <= i < j < |fields| ==> Before(fields[i].key, fields[j].key)
  }

  function Insert(f: Field, sorted: seq<Field>): (r: seq<Field>)
    ensures multiset(r) == multiset(sorted) + multiset{f}
  {
    if sorted == [] then [f]
    else if Before(f.key, sorted[0].key) then [f] + sorted
    else
      assert sorted == [sorted[0]] + sorted[1..];
      [sorted[0]] + Insert(f, sorted[1..])
  }

  /** The fields in ascending key order. */
  function Sorted(fields: seq<Field>): (r: seq<Field>)
    ensures multiset(r) == multiset(fields)
    ensures |r| == |fields|
    ensures forall f :: f in r <==> f in fields
  {
    if fields == [] then []
    else
      var r := Insert(fields[0], Sorted(fields[1..]));
      assert fields == [fields[0]] + fields[1..];
      SameMembers(r, fields);
      r
  }

  lemma SameMembers(a: seq<Field>, b: seq<Field>)
    requires multiset(a) == multiset(b)
    ensures |a| == |b|
    ensures forall f :: f in a <==> f in b
  {
    assert |multiset(a)| == |a| && |multiset(b)| == |b|;
    forall f ensures f in a <==> f in b {
      assert f in a <==> f in multiset(a);
      assert f in b <==> f in multiset(b);
    }
  }

  lemma {:induction false} InsertAscends(f: Field, sorted: seq<Field>)
    requires Ascending(sorted)
    requires forall g :: g in sorted ==> g.key != f.key
    ensures Ascending(Insert(f, sorted))
  {
    if sorted == [] {
    } else if Before(f.key, sorted[0].key) {
      forall j | 0 <= j < |sorted| ensures Before(f.key, sorted[j].key) {
        if 0 < j {
          BeforeIsTransitive(f.key, sorted[0].key, sorted[j].key);
        }
      }
    } else {
      var tail := Insert(f, sorted[1..]);
      InsertAscends(f, sorted[1..]);
      forall j | 0 <= j < |tail| ensures Before(sorted[0].key, tail[j].key) {
        assert tail[j] in multiset(tail);
        assert tail[j] == f || tail[j] in sorted[1..];
        BeforeIsTotal(f.key, sorted[0].key);
      }
    }
  }

  lemma {:induction false} SortedAscends(fields: seq<Field>)
    requires DistinctKeys(fields)
    ensures Ascending(Sorted(fields))
  {
    if fields != [] {
      SortedAscends(fields[1..]);
      InsertAscends(fields[0], Sorted(fields[1..]));
    }
  }

  lemma AscendingIsDistinct(fields: seq<Field>)
    requires Ascending(fields)
    ensures DistinctKeys(fields)
  {
    forall i, j | 0 <= i < j < |fields| ensures fields[i].key != fields[j].key {
      BeforeIsTotal(fields[i].key, fields[j].key);
    }
  }

  // ------------------------------------------------------------ string literals

  predicate IsHigh(u: Unit) { 0xD800 <= u <= 0xDBFF }

  predicate IsLow(u: Unit) { 0xDC00 <= u <= 0xDFFF }

  function HexDigit(n: nat): Unit
    requires n < 16
  {
    if n < 10 then 0x30 + n else 0x61 + n - 10
  }

  function HexEscape(u: Unit): Text
  {
    [BACKSLASH, 0x75, HexDigit(u / 4096), HexDigit(u / 256 % 16), HexDigit(u / 16 % 16), HexDigit(u % 16)]
  }

  /** One code unit inside a string literal; lone surrogates and controls become `\uXXXX`. */
  function EscapeUnit(u: Unit): Text
  {
    if u == QUOTE then [BACKSLASH, QUOTE]
    else if u == BACKSLASH then [BACKSLASH, BACKSLASH]
    else if u == 0x08 then [BACKSLASH, 0x62]
    else if u == 0x09 then [BACKSLASH, 0x74]
    else if u == 0x0A then [BACKSLASH, 0x6E]
    else if u == 0x0C then [BACKSLASH, 0x66]
    else if u == 0x0D then [BACKSLASH, 0x72]
    else if u < 0x20 || IsHigh(u) || IsLow(u) then HexEscape(u)
    else [u]
  }

  function QuoteBody(s: Text): Text
  {
    if s == [] then []
    else if |s| > 1 && IsHigh(s[0]) && IsLow(s[1]) then [s[0], s[1]] + QuoteBody(s[2..])
    else EscapeUnit(s[0]) + QuoteBody(s[1..])
  }

  /** `JSON.stringify` of a string. */
  function Quote(s: Text): Text
  {
    [QUOTE] + QuoteBody(s) + [QUOTE]
  }

  // ------------------------------------------------------------ the printer

  function Join(parts: seq<Text>): Text
  {
    if parts == [] then []
    else if |parts| == 1 then parts[0]
    else parts[0] + [COMMA] + Join(parts[1..])
  }

  function Print(v: Value): Text
    requires Supported(v)
    decreases v, 1, 0
  {
    match v
    case Undefined => UNDEFINED_WORD
    case Null => NULL_WORD
    case Bool(b) => if b then TRUE_WORD else FALSE_WORD
    case Number(n) => if n.NegativeZero? then ZERO_TOKEN else n.token
    case Str(text) => Quote(text)
    case Array(slots) => [OPEN_BRACKET] + Join(PrintSlots(slots)) + [CLOSE_BRACKET]
    case Object(fields) => [OPEN_BRACE] + Join(PrintFields(v, Sorted(fields))) + [CLOSE_BRACE]
  }

  function PrintSlot(s: Slot): Text
    requires s.Item? ==> Supported(s.value)
    decreases s, 2, 0
  {
    match s
    case Hole => UNDEFINED_WORD
    case Item(v) => Print(v)
  }

  function PrintSlots(slots: seq<Slot>): (parts: seq<Text>)
    requires forall s :: s in slots && s.Item? ==> Supported(s.value)
    ensures |parts| == |slots|
    decreases slots, 0, 0
  {
    if slots == [] then [] else [PrintSlot(slots[0])] + PrintSlots(slots[1..])
  }

  function PrintFields(parent: Value, fields: seq<Field>): (parts: seq<Text>)
    requires parent.Object? && Supported(parent)
    requires forall f :: f in fields ==> f in parent.fields
    ensures |parts| == |fields|
    decreases parent, 0, |fields|
  {
    if fields == [] then []
    else
      assert fields[0] in parent.fields;
      [Quote(fields[0].key) + [COLON] + Print(fields[0].value)] + PrintFields(parent, fields[1..])
  }

  /** The keys ascend: of two fields the one with the smaller unit, where their keys first differ, stands first. */
  ghost predicate KeysAscend(fields: seq<Field>)
  {
    forall i, j :: 0 <= i < j < |fields| ==> Less(fields[i].key, fields[j].key)
  }

  /** The text is that of the object's own fields, each with its value, in ascending order of their keys. */
  ghost predicate PrintedInOrder(v: Value, text: Text)
    requires v.Object? && Supported(v)
  {
    exists order: seq<Field>, parts: seq<Text> :: PrintedFrom(v, text, order, parts)
  }

  ghost predicate PrintedFrom(v: Value, text: Text, order: seq<Field>, parts: seq<Text>)
    requires v.Object? && Supported(v)
  {
    && multiset(order) == multiset(v.fields) && KeysAscend(order)
    && |parts| == |order| && text == [OPEN_BRACE] + Join(parts) + [CLOSE_BRACE]
    && forall i :: 0 <= i < |order| ==> FieldText(order[i], parts[i])
  }

  predicate FieldText(f: Field, part: Text)
  {
    Supported(f.value) && part == Quote(f.key) + [COLON] + Print(f.value)
  }

  lemma {:induction false} PartsAreFields(parent: Value, fields: seq<Field>)
    requires parent.Object? && Supported(parent)
    requires forall f :: f in fields ==> f in parent.fields
    ensures forall i :: 0 <= i < |fields| ==> FieldText(fields[i], PrintFields(parent, fields)[i])
  {
    if fields != [] {
      assert fields[0] in parent.fields;
      PartsAreFields(parent, fields[1..]);
      forall i | 0 < i < |fields| ensures FieldText(fields[i], PrintFields(parent, fields)[i]) {
        assert fields[i] == fields[1..][i - 1];
      }
    }
  }

  /** An object is printed in ascending order of its keys' code units. */
  lemma ObjectPrintedInOrder(v: Value)
    requires v.Object?
    ensures Valid(v) && Supported(v) ==> PrintedInOrder(v, Print(v))
  {
    if Valid(v) && Supported(v) {
      SupportedPrintedInOrder(v);
    }
  }

  lemma SupportedPrintedInOrder(v: Value)
    requires v.Object? && Valid(v) && Supported(v)
    ensures PrintedInOrder(v, Print(v))
  {
    var order := Sorted(v.fields);
    SortedAscends(v.fields);
    AscendingByUnits(order);
    PartsAreFields(v, order);
    var parts := PrintFields(v, order);
    assert Print(v) == [OPEN_BRACE] + Join(parts) + [CLOSE_BRACE];
    assert PrintedFrom(v, Print(v), order, parts);
  }

  lemma AscendingByUnits(fields: seq<Field>)
    requires Ascending(fields)
    ensures KeysAscend(fields)
  {
    forall i, j | 0 <= i < j < |fields| ensures Less(fields[i].key, fields[j].key) {
      BeforeIff(fields[i].key, fields[j].key);
    }
  }

  // ------------------------------------------------------------ errors

  datatype Step = Index(index: nat) | Key(key: Text)

  datatype KeyError =
    | NonFiniteNumber(path: seq<Step>)
    | UnsupportedValue(path: seq<Step>)
    | TooLong(maxLength: nat, actualLength: nat)

  /** The error met first: arrays by index, objects in sorted key order. */
  function FirstError(v: Value, path: seq<Step>): Option<KeyError>
    decreases v, 1, 0
  {
    match v
    case Unsupported => Some(UnsupportedValue(path))
    case Number(n) => if n.NonFinite? then Some(NonFiniteNumber(path)) else None
    case Array(slots) => FirstSlotError(slots, path, 0)
    case Object(fields) => FirstFieldError(v, Sorted(fields), path)
    case _ => None
  }

  function SlotError(s: Slot, path: seq<Step>): Option<KeyError>
    decreases s, 2, 0
  {
    match s
    case Hole => None
    case Item(v) => FirstError(v, path)
  }

  function FirstSlotError(slots: seq<Slot>, path: seq<Step>, index: nat): Option<KeyError>
    decreases slots, 0, 0
  {
    if slots == [] then None
    else
      var here := SlotError(slots[0], path + [Index(index)]);
      if here.Some? then here else FirstSlotError(slots[1..], path, index + 1)
  }

  function FirstFieldError(parent: Value, fields: seq<Field>, path: seq<Step>): Option<KeyError>
    requires parent.Object?
    requires forall f :: f in fields ==> f in parent.fields
    decreases parent, 0, |fields|
  {
    if fields == [] then None
    else
      assert fields[0] in parent.fields;
      var here := FirstError(fields[0].value, path + [Key(fields[0].key)]);
      if here.Some? then here else FirstFieldError(parent, fields[1..], path)
  }

  /** An error is reported exactly for the inputs that are not JSON-shaped, and it points below `path`
      at a value of the offending kind. */
  lemma {:induction false} ErrorIffUnsupported(v: Value, path: seq<Step>)
    ensures FirstError(v, path).None? <==> Supported(v)
    ensures FirstError(v, path).Some? ==> Offends(v, path, FirstError(v, path).value)
    decreases v, 1, 0
  {
    match v
    case Array(slots) => SlotErrorIffUnsupported(v, slots, path, 0);
    case Object(fields) =>
      FieldErrorIffUnsupported(v, Sorted(fields), path);
      SortedSupportAlike(fields);
    case Unsupported => assert path[|path|..] == [];
    case Number(n) => assert path[|path|..] == [];
    case _ =>
  }

  lemma SortedSupportAlike(fields: seq<Field>)
    ensures (forall f :: f in fields ==> Supported(f.value)) <==> forall f :: f in Sorted(fields) ==> Supported(f.value)
  {
  }

  lemma {:induction false} SlotErrorIffUnsupported(v: Value, slots: seq<Slot>, path: seq<Step>, index: nat)
    requires v.Array? && index <= |v.slots| && slots == v.slots[index..]
    ensures FirstSlotError(slots, path, index).None? <==> forall s :: s in slots && s.Item? ==> Supported(s.value)
    ensures FirstSlotError(slots, path, index).Some? ==> Offends(v, path, FirstSlotError(slots, path, index).value)
    decreases v, 0, |slots|
  {
    if slots != [] {
      assert slots[0] == v.slots[index];
      assert slots[0] in v.slots;
      if slots[0].Item? {
        ErrorIffUnsupported(slots[0].value, path + [Index(index)]);
        var here := FirstError(slots[0].value, path + [Index(index)]);
        if here.Some? {
          OffendsBelow(v, slots[0].value, path, Index(index), here.value);
        }
      }
      SlotErrorIffUnsupported(v, slots[1..], path, index + 1);
    }
  }

  lemma {:induction false} FieldErrorIffUnsupported(v: Value, fields: seq<Field>, path: seq<Step>)
    requires v.Object?
    requires forall f :: f in fields ==> f in v.fields
    ensures FirstFieldError(v, fields, path).None? <==> forall f :: f in fields ==> Supported(f.value)
    ensures FirstFieldError(v, fields, path).Some? ==> Offends(v, path, FirstFieldError(v, fields, path).value)
    decreases v, 0, |fields|
  {
    if fields != [] {
      assert fields[0] in v.fields;
      ErrorIffUnsupported(fields[0].value, path + [Key(fields[0].key)]);
      var here := FirstError(fields[0].value, path + [Key(fields[0].key)]);
      if here.Some? {
        OffendsBelow(v, fields[0].value, path, Key(fields[0].key), here.value);
      }
      FieldErrorIffUnsupported(v, fields[1..], path);
    }
  }

  /** `w` sits in `v` directly below the step. */
  predicate Child(v: Value, step: Step, w: Value)
  {
    match step
    case Index(i) => v.Array? && i < |v.slots| && v.slots[i] == Item(w)
    case Key(k) => v.Object? && Field(k, w) in v.fields
  }

  /** `w` is reached from `v` by the steps. */
  ghost predicate At(v: Value, steps: seq<Step>, w: Value)
    decreases |steps|
  {
    if steps == [] then w == v
    else exists child :: Child(v, steps[0], child) && At(child, steps[1..], w)
  }

  ghost predicate Offends(v: Value, path: seq<Step>, e: KeyError)
  {
    match e
    case NonFiniteNumber(p) => path <= p && At(v, p[|path|..], Number(NonFinite))
    case UnsupportedValue(p) => path <= p && At(v, p[|path|..], Unsupported)
    case TooLong(_, _) => false
  }

  lemma OffendsBelow(v: Value, child: Value, path: seq<Step>, step: Step, e: KeyError)
    requires Child(v, step, child) && Offends(child, path + [step], e)
    ensures Offends(v, path, e)
  {
    var p := e.path;
    var steps := p[|path|..];
    assert p[|path + [step]|..] == steps[1..];
    assert steps[0] == p[|path|] == (path + [step])[|path|] == step;
    assert path <= path + [step] <= p;
  }

  /** Index order in an array, key order in an object. */
  ghost predicate StepBefore(a: Step, b: Step)
  {
    match (a, b)
    case (Index(i), Index(j)) => i < j
    case (Key(k), Key(l)) => Less(k, l)
    case _ => false
  }

  /** Where the two paths first part, `p` takes the earlier step. */
  ghost predicate Earlier(p: seq<Step>, q: seq<Step>)
  {
    exists n :: 0 <= n < |p| && n < |q| && p[..n] == q[..n] && StepBefore(p[n], q[n])
  }

  ghost predicate NotLater(e: KeyError, other: KeyError)
  {
    e == other || (!e.TooLong? && !other.TooLong? && Earlier(e.path, other.path))
  }

  lemma PartedIsEarlier(path: seq<Step>, a: Step, b: Step, e: KeyError, other: KeyError)
    requires !e.TooLong? && !other.TooLong?
    requires path + [a] <= e.path && path + [b] <= other.path && StepBefore(a, b)
    ensures NotLater(e, other)
  {
    var n := |path|;
    assert e.path[..n] == (path + [a])[..n] == path && other.path[..n] == (path + [b])[..n] == path;
    assert e.path[n] == (path + [a])[n] && other.path[n] == (path + [b])[n];
  }

  /** Of all that is wrong with an input the error names what comes first, by index and by key. */
  lemma {:induction false} FirstErrorIsFirst(v: Value, path: seq<Step>, other: KeyError)
    requires Valid(v) && Offends(v, path, other)
    ensures FirstError(v, path).Some? && NotLater(FirstError(v, path).value, other)
    decreases v, 1, 0
  {
    var steps := other.path[|path|..];
    if steps == [] {
      assert other.path == path;
    } else {
      var child :| Child(v, steps[0], child) && At(child, steps[1..], if other.NonFiniteNumber? then Number(NonFinite)
                                                                      else Unsupported);
      OffendsInChild(child, path, steps[0], other);
      match v
      case Array(slots) => SlotErrorIsFirst(v, slots, path, 0, steps[0].index, other);
      case Object(fields) =>
        SortedAscends(fields);
        assert Field(steps[0].key, child) in Sorted(fields);
        FieldErrorIsFirst(v, Sorted(fields), path, Field(steps[0].key, child), other);
    }
  }

  lemma OffendsInChild(child: Value, path: seq<Step>, step: Step, e: KeyError)
    requires !e.TooLong? && path <= e.path && |path| < |e.path| && e.path[|path|] == step
    requires At(child, e.path[|path| + 1..], if e.NonFiniteNumber? then Number(NonFinite) else Unsupported)
    ensures Offends(child, path + [step], e)
  {
    assert path + [step] == e.path[..|path| + 1];
  }

  lemma {:induction false} SlotErrorIsFirst(v: Value, slots: seq<Slot>, path: seq<Step>, index: nat, k: nat,
                                            other: KeyError)
    requires v.Array? && Valid(v) && forall s :: s in slots ==> s in v.slots
    requires k < |slots| && slots[k].Item? && Offends(slots[k].value, path + [Index(index + k)], other)
    ensures FirstSlotError(slots, path, index).Some? && NotLater(FirstSlotError(slots, path, index).value, other)
    decreases v, 0, |slots|
  {
    assert slots[0] in v.slots;
    if k == 0 {
      FirstErrorIsFirst(slots[0].value, path + [Index(index)], other);
    } else {
      SlotErrorIsFirst(v, slots[1..], path, index + 1, k - 1, other);
      if slots[0].Item? {
        ErrorIffUnsupported(slots[0].value, path + [Index(index)]);
        var here := FirstError(slots[0].value, path + [Index(index)]);
        if here.Some? {
          PartedIsEarlier(path, Index(index), Index(index + k), here.value, other);
        }
      }
    }
  }

  lemma {:induction false} FieldErrorIsFirst(parent: Value, fields: seq<Field>, path: seq<Step>, f: Field,
                                             other: KeyError)
    requires parent.Object? && Valid(parent) && Ascending(fields)
    requires forall g :: g in fields ==> g in parent.fields
    requires f in fields && Offends(f.value, path + [Key(f.key)], other)
    ensures FirstFieldError(parent, fields, path).Some? && NotLater(FirstFieldError(parent, fields, path).value, other)
    decreases parent, 0, |fields|
  {
    var first := fields[0];
    assert first in parent.fields;
    if f == first {
      FirstErrorIsFirst(first.value, path + [Key(first.key)], other);
    } else {
      var i :| 0 < i < |fields| && fields[i] == f;
      assert fields[1..][i - 1] == f;
      FieldErrorIsFirst(parent, fields[1..], path, f, other);
      ErrorIffUnsupported(first.value, path + [Key(first.key)]);
      BeforeIff(first.key, f.key);
      var here := FirstError(first.value, path + [Key(first.key)]);
      if here.Some? {
        PartedIsEarlier(path, Key(first.key), Key(f.key), here.value, other);
      }
    }
  }

  // ------------------------------------------------------------ the parser

  datatype Parsed<+T> = Failed | Parsed(value: T, rest: Text)

  function HexValue(u: Unit): Option<nat>
  {
    if IsDigit(u) then Some(u - 0x30)
    else if 0x61 <= u <= 0x66 then Some(u - 0x61 + 10)
    else if 0x41 <= u <= 0x46 then Some(u - 0x41 + 10)
    else None
  }

  /** The unit a two-character escape stands for (section 7 of RFC 8259). */
  function ShortEscape(u: Unit): Option<Unit>
  {
    if u == QUOTE || u == BACKSLASH || u == 0x2F then Some(u)
    else if u == 0x62 then Some(0x08)
    else if u == 0x66 then Some(0x0C)
    else if u == 0x6E then Some(0x0A)
    else if u == 0x72 then Some(0x0D)
    else if u == 0x74 then Some(0x09)
    else None
  }

  /** Four hexadecimal digits follow the two units that open a numeric escape. */
  predicate FourHex(s: Text)
    requires |s| >= 6
  {
    HexValue(s[2]).Some? && HexValue(s[3]).Some? && HexValue(s[4]).Some? && HexValue(s[5]).Some?
  }

  function HexUnit(s: Text): Unit
    requires |s| >= 6 && FourHex(s)
  {
    HexValue(s[2]).value * 4096 + HexValue(s[3]).value * 256 + HexValue(s[4]).value * 16 + HexValue(s[5]).value
  }

  /** The units of a literal that stand for the first unit of its string. */
  function HeadLength(s: Text): nat
  {
    if s == [] || s[0] != BACKSLASH then 1 else if |s| > 1 && s[1] == 0x75 then 6 else 2
  }

  /** The first unit of the string, told by the first units of the literal. */
  function HeadUnit(s: Text): (u: Option<Unit>)
    requires s != []
    ensures u.Some? ==> HeadLength(s) <= |s|
  {
    if s[0] < 0x20 then None
    else if s[0] != BACKSLASH then Some(s[0])
    else if |s| > 1 && s[1] != 0x75 then ShortEscape(s[1])
    else if |s| >= 6 && FourHex(s) then Some(HexUnit(s))
    else None
  }

  /** Reads the rest of a string literal, after its opening quote, by section 7 of RFC 8259. */
  function ScanString(s: Text): (r: Parsed<Text>)
    ensures r.Parsed? ==> |r.rest| < |s|
  {
    if s == [] then Failed
    else if s[0] == QUOTE then Parsed([], s[1..])
    else if HeadUnit(s).None? then Failed
    else Prepend(HeadUnit(s).value, ScanString(s[HeadLength(s)..]))
  }

  function Prepend(u: Unit, r: Parsed<Text>): Parsed<Text>
  {
    match r
    case Failed => Failed
    case Parsed(text, rest) => Parsed([u] + text, rest)
  }

  /** How many leading units belong to a number. */
  function NumberLength(s: Text): (n: nat)
    ensures n <= |s|
  {
    if s == [] || !InNumber(s[0]) then 0 else 1 + NumberLength(s[1..])
  }

  function ParseValue(s: Text): (r: Parsed<Doc>)
    ensures r.Parsed? ==> |r.rest| < |s|
    decreases |s|, 0
  {
    if s == [] then Failed
    else if s[0] == QUOTE then
      var r := ScanString(s[1..]);
      if r.Failed? then Failed else Parsed(DString(r.value), r.rest)
    else if s[0] == OPEN_BRACKET then
      if |s| > 1 && s[1] == CLOSE_BRACKET then Parsed(DArray([]), s[2..])
      else
        var r := ParseItems(s[1..]);
        if r.Failed? then Failed else Parsed(DArray(r.value), r.rest)
    else if s[0] == OPEN_BRACE then
      if |s| > 1 && s[1] == CLOSE_BRACE then Parsed(DObject(map[]), s[2..])
      else
        var r := ParseFields(s[1..]);
        if r.Failed? then Failed else Parsed(DObject(r.value), r.rest)
    else if StartsNumber(s[0]) then Parsed(DNumber(s[..NumberLength(s)]), s[NumberLength(s)..])
    else if UNDEFINED_WORD <= s then Parsed(DUndefined, s[|UNDEFINED_WORD|..])
    else if NULL_WORD <= s then Parsed(DNull, s[|NULL_WORD|..])
    else if TRUE_WORD <= s then Parsed(DBool(true), s[|TRUE_WORD|..])
    else if FALSE_WORD <= s then Parsed(DBool(false), s[|FALSE_WORD|..])
    else Failed
  }

  /** One or more values separated by commas, up to and including the closing bracket. */
  function ParseItems(s: Text): (r: Parsed<seq<Doc>>)
    ensures r.Parsed? ==> |r.rest| < |s|
    decreases |s|, 1
  {
    var first := ParseValue(s);
    if first.Failed? || first.rest == [] then Failed
    else if first.rest[0] == CLOSE_BRACKET then Parsed([first.value], first.rest[1..])
    else if first.rest[0] == COMMA then
      var more := ParseItems(first.rest[1..]);
      if more.Failed? then Failed else Parsed([first.value] + more.value, more.rest)
    else Failed
  }

  function ParseFields(s: Text): (r: Parsed<map<Text, Doc>>)
    ensures r.Parsed? ==> |r.rest| < |s|
    decreases |s|, 1
  {
    if s == [] || s[0] != QUOTE then Failed
    else
      var key := ScanString(s[1..]);
      if key.Failed? || key.rest == [] || key.rest[0] != COLON then Failed
      else
        var first := ParseValue(key.rest[1..]);
        if first.Failed? || first.rest == [] then Failed
        else if first.rest[0] == CLOSE_BRACE then Parsed(map[key.value := first.value], first.rest[1..])
        else if first.rest[0] == COMMA then
          var more := ParseFields(first.rest[1..]);
          if more.Failed? then Failed else Parsed(more.value[key.value := first.value], more.rest)
        else Failed
  }

  // ------------------------------------------------------------ parser inverts printer

  lemma HexRoundTrip(u: Unit)
    ensures HexValue(HexDigit(u / 4096)) == Some(u / 4096)
    ensures HexValue(HexDigit(u / 256 % 16)) == Some(u / 256 % 16)
    ensures HexValue(HexDigit(u / 16 % 16)) == Some(u / 16 % 16)
    ensures HexValue(HexDigit(u % 16)) == Some(u % 16)
    ensures u / 4096 * 4096 + u / 256 % 16 * 256 + u / 16 % 16 * 16 + u % 16 == u
  {
    assert u / 16 == u / 256 * 16 + u / 16 % 16;
    assert u / 256 == u / 4096 * 16 + u / 256 % 16;
  }

  lemma ScanEscape(u: Unit, rest: Text)
    ensures ScanString(EscapeUnit(u) + rest) == Prepend(u, ScanString(rest))
  {
    var s := EscapeUnit(u) + rest;
    assert s[|EscapeUnit(u)|..] == rest;
    EscapeHead(u, rest);
  }

  lemma EscapeHead(u: Unit, rest: Text)
    ensures var s := EscapeUnit(u) + rest;
      s[0] != QUOTE && HeadUnit(s) == Some(u) && HeadLength(s) == |EscapeUnit(u)|
  {
    if |EscapeUnit(u)| == 6 {
      HexRoundTrip(u);
    }
  }

  lemma ScanPlain(u: Unit, rest: Text)
    requires u >= 0x20 && u != QUOTE && u != BACKSLASH
    ensures ScanString([u] + rest) == Prepend(u, ScanString(rest))
  {
    assert ([u] + rest)[1..] == rest;
  }

  function PrependAll(t: Text, r: Parsed<Text>): Parsed<Text>
  {
    match r
    case Failed => Failed
    case Parsed(text, rest) => Parsed(t + text, rest)
  }

  lemma PrependThenAll(u: Unit, t: Text, r: Parsed<Text>)
    ensures Prepend(u, PrependAll(t, r)) == PrependAll([u] + t, r)
  {
    if r.Parsed? {
      assert [u] + (t + r.value) == [u] + t + r.value;
    }
  }

  lemma Regroup3(a: Text, b: Text, c: Text)
    ensures a + b + c == a + (b + c)
  {
  }

  lemma Regroup5(a: Text, b: Text, c: Text, d: Text, e: Text)
    ensures a + b + c + d + e == a + (b + (c + (d + e)))
  {
    Regroup3(a + b + c, d, e);
    Regroup3(a + b, c, d + e);
    Regroup3(a, b, c + (d + e));
  }

  lemma QuoteBodyCons(s: Text, after: Text)
    requires s != []
    ensures if |s| > 1 && IsHigh(s[0]) && IsLow(s[1])
              then QuoteBody(s) + after == [s[0]] + ([s[1]] + (QuoteBody(s[2..]) + after))
              else QuoteBody(s) + after == EscapeUnit(s[0]) + (QuoteBody(s[1..]) + after)
  {
    if |s| > 1 && IsHigh(s[0]) && IsLow(s[1]) {
      Regroup3([s[0], s[1]], QuoteBody(s[2..]), after);
      Regroup3([s[0]], [s[1]], QuoteBody(s[2..]) + after);
      assert [s[0]] + [s[1]] == [s[0], s[1]];
    } else {
      Regroup3(EscapeUnit(s[0]), QuoteBody(s[1..]), after);
    }
  }

  lemma {:induction false} ScanQuoteBody(s: Text, after: Text)
    ensures ScanString(QuoteBody(s) + after) == PrependAll(s, ScanString(after))
  {
    if s == [] {
      assert QuoteBody(s) + after == after;
      if ScanString(after).Parsed? {
        assert [] + ScanString(after).value == ScanString(after).value;
      }
    } else {
      QuoteBodyCons(s, after);
      if |s| > 1 && IsHigh(s[0]) && IsLow(s[1]) {
        ScanPlain(s[0], [s[1]] + (QuoteBody(s[2..]) + after));
        ScanPlain(s[1], QuoteBody(s[2..]) + after);
        ScanQuoteBody(s[2..], after);
        PrependThenAll(s[1], s[2..], ScanString(after));
        PrependThenAll(s[0], [s[1]] + s[2..], ScanString(after));
        assert s == [s[0]] + ([s[1]] + s[2..]);
      } else {
        ScanEscape(s[0], QuoteBody(s[1..]) + after);
        ScanQuoteBody(s[1..], after);
        PrependThenAll(s[0], s[1..], ScanString(after));
        assert s == [s[0]] + s[1..];
      }
    }
  }

  /** A printed literal is read back by the grammar of section 7 of RFC 8259, for every string. */
  lemma QuoteRoundTrip(s: Text, rest: Text)
    ensures Quote(s) + rest != [] && (Quote(s) + rest)[0] == QUOTE
    ensures ScanString((Quote(s) + rest)[1..]) == Parsed(s, rest)
  {
    assert (Quote(s) + rest)[1..] == QuoteBody(s) + ([QUOTE] + rest);
    ScanQuoteBody(s, [QUOTE] + rest);
    assert ([QUOTE] + rest)[1..] == rest;
    assert s + [] == s;
  }

  /** No surrogate stands alone. */
  predicate WellFormedUtf16(s: Text)
  {
    if s == [] then true
    else if IsHigh(s[0]) then |s| > 1 && IsLow(s[1]) && WellFormedUtf16(s[2..])
    else !IsLow(s[0]) && WellFormedUtf16(s[1..])
  }

  lemma {:induction false} PlainPrefix(a: Text, b: Text)
    requires forall u :: u in a ==> !IsHigh(u) && !IsLow(u)
    requires WellFormedUtf16(b)
    ensures WellFormedUtf16(a + b)
  {
    if a == [] {
      assert a + b == b;
    } else {
      PlainPrefix(a[1..], b);
      assert (a + b)[1..] == a[1..] + b;
    }
  }

  lemma {:induction false} QuoteBodyIsWellFormed(s: Text)
    ensures WellFormedUtf16(QuoteBody(s) + [QUOTE])
  {
    if s == [] {
      assert QuoteBody(s) + [QUOTE] == [QUOTE];
    } else {
      QuoteBodyCons(s, [QUOTE]);
      if |s| > 1 && IsHigh(s[0]) && IsLow(s[1]) {
        QuoteBodyIsWellFormed(s[2..]);
        PairPrefix(s[0], s[1], QuoteBody(s[2..]) + [QUOTE]);
      } else {
        QuoteBodyIsWellFormed(s[1..]);
        PlainPrefix(EscapeUnit(s[0]), QuoteBody(s[1..]) + [QUOTE]);
      }
    }
  }

  lemma PairPrefix(high: Unit, low: Unit, rest: Text)
    requires IsHigh(high) && IsLow(low) && WellFormedUtf16(rest)
    ensures WellFormedUtf16([high] + ([low] + rest))
  {
    assert ([high] + ([low] + rest))[2..] == rest;
  }

  /** Whatever string is quoted, lone surrogates included, the literal can be written as UTF-8. */
  lemma QuoteIsWellFormed(s: Text)
    ensures WellFormedUtf16(Quote(s))
  {
    QuoteBodyIsWellFormed(s);
    assert Quote(s) == [QUOTE] + (QuoteBody(s) + [QUOTE]);
    PlainPrefix([QUOTE], QuoteBody(s) + [QUOTE]);
  }

  /** Every numeric escape in the rest of a literal is spelled with lower-case digits. */
  predicate LowerCase(t: Text)
  {
    if t == [] || t[0] == QUOTE then true
    else if t[0] != BACKSLASH then LowerCase(t[1..])
    else if |t| >= 6 && t[1] == 0x75 then (forall k :: 2 <= k < 6 ==> !(0x41 <= t[k] <= 0x46)) && LowerCase(t[6..])
    else |t| >= 2 ==> LowerCase(t[2..])
  }

  lemma {:induction false} QuoteBodyIsLowerCase(s: Text)
    ensures LowerCase(QuoteBody(s) + [QUOTE])
  {
    if s == [] {
      assert QuoteBody(s) + [QUOTE] == [QUOTE];
    } else {
      QuoteBodyCons(s, [QUOTE]);
      var t := QuoteBody(s) + [QUOTE];
      if |s| > 1 && IsHigh(s[0]) && IsLow(s[1]) {
        QuoteBodyIsLowerCase(s[2..]);
        assert t[2..] == QuoteBody(s[2..]) + [QUOTE] && t[1..][1..] == t[2..];
      } else {
        QuoteBodyIsLowerCase(s[1..]);
        EscapeIsLowerCase(s[0], QuoteBody(s[1..]) + [QUOTE]);
      }
    }
  }

  lemma EscapeIsLowerCase(u: Unit, rest: Text)
    requires LowerCase(rest)
    ensures LowerCase(EscapeUnit(u) + rest)
  {
    var t := EscapeUnit(u) + rest;
    assert t[|EscapeUnit(u)|..] == rest;
    if |EscapeUnit(u)| == 6 {
      assert t[..6] == HexEscape(u);
      forall k | 2 <= k < 6 ensures !(0x41 <= t[k] <= 0x46) {
        assert t[k] == t[..6][k];
      }
    }
  }

  /** What printing a string one unit longer adds. */
  lemma QuoteBodyLength(s: Text)
    requires s != []
    ensures |QuoteBody(s)| == |QuoteBody(s[1..])|
      + if |s| > 1 && IsHigh(s[0]) && IsLow(s[1]) then -4 else |EscapeUnit(s[0])|
  {
    if |s| > 1 && IsHigh(s[0]) && IsLow(s[1]) {
      assert s[1..][1..] == s[2..];
    }
  }

  lemma {:induction false} DropPlain(t: Text, k: nat)
    requires WellFormedUtf16(t) && k <= |t| && forall i :: 0 <= i < k ==> !IsHigh(t[i])
    ensures WellFormedUtf16(t[k..])
  {
    if k > 0 {
      DropPlain(t[1..], k - 1);
      assert t[1..][k - 1..] == t[k..];
    } else {
      assert t[0..] == t;
    }
  }

  predicate Shortest(t: Text, s: Text)
  {
    |QuoteBody(s)| < |t| && (LowerCase(t) && |t| == |QuoteBody(s)| + 1 ==> t == QuoteBody(s) + [QUOTE])
  }

  lemma ScanHead(t: Text, s: Text)
    requires ScanString(t) == Parsed(s, []) && t[0] != QUOTE
    ensures s != [] && HeadUnit(t) == Some(s[0]) && ScanString(t[HeadLength(t)..]) == Parsed(s[1..], [])
  {
    assert s[1..] == ScanString(t[HeadLength(t)..]).value;
  }

  lemma HeadIsWellFormed(t: Text)
    requires WellFormedUtf16(t) && t != [] && HeadUnit(t).Some? && !IsHigh(t[0])
    ensures WellFormedUtf16(t[HeadLength(t)..])
    ensures HeadLength(t) == 1 ==> !IsHigh(HeadUnit(t).value) && !IsLow(HeadUnit(t).value)
  {
    if t[0] == BACKSLASH {
      HeadIsPlain(t);
      DropPlain(t, HeadLength(t));
    }
  }

  lemma HeadIsPlain(t: Text)
    requires t != [] && HeadUnit(t).Some? && t[0] == BACKSLASH
    ensures forall i :: 0 <= i < HeadLength(t) ==> !IsHigh(t[i])
  {
  }

  lemma {:induction false} BodyIsShortest(t: Text, s: Text)
    requires WellFormedUtf16(t) && ScanString(t) == Parsed(s, [])
    ensures Shortest(t, s)
    decreases |t|
  {
    if t[0] == QUOTE {
      assert t == [QUOTE];
    } else if IsHigh(t[0]) {
      ScanHead(t, s);
      ScanHead(t[1..], s[1..]);
      assert t[1..][1..] == t[2..] && s[1..][1..] == s[2..];
      BodyIsShortest(t[2..], s[2..]);
      ShortestWithPair(t, s);
    } else {
      ScanHead(t, s);
      HeadIsWellFormed(t);
      BodyIsShortest(t[HeadLength(t)..], s[1..]);
      ShortestWithHead(t, s);
    }
  }

  /** A string has several literals.  Of the well-formed ones none is shorter than the printed one, and of those as
      short as that only the printed one spells its numeric escapes with lower-case digits. */
  lemma QuoteIsShortest(body: Text, s: Text)
    requires WellFormedUtf16([QUOTE] + body) && ScanString(body) == Parsed(s, [])
    ensures |Quote(s)| <= 1 + |body|
    ensures LowerCase(body) && |Quote(s)| == 1 + |body| ==> Quote(s) == [QUOTE] + body
  {
    DropPlain([QUOTE] + body, 1);
    assert ([QUOTE] + body)[1..] == body;
    BodyIsShortest(body, s);
    if LowerCase(body) && |Quote(s)| == 1 + |body| {
      Regroup3([QUOTE], QuoteBody(s), [QUOTE]);
    }
  }

  lemma QuoteIsLowerCase(s: Text)
    ensures LowerCase(Quote(s)[1..])
  {
    QuoteBodyIsLowerCase(s);
    assert Quote(s)[1..] == QuoteBody(s) + [QUOTE];
  }

  lemma ShortestWithPair(t: Text, s: Text)
    requires |t| > 1 && |s| > 1 && s[0] == t[0] && s[1] == t[1] && IsHigh(s[0]) && IsLow(s[1])
    requires Shortest(t[2..], s[2..])
    ensures Shortest(t, s)
  {
    assert t[1..][1..] == t[2..];
    if LowerCase(t) && |t| == |QuoteBody(s)| + 1 {
      assert t == [t[0], t[1]] + t[2..];
      assert LowerCase(t[1..]) && LowerCase(t[2..]);
      Regroup3([s[0], s[1]], QuoteBody(s[2..]), [QUOTE]);
    }
  }

  lemma ShortestWithHead(t: Text, s: Text)
    requires s != [] && t != [] && t[0] != QUOTE && HeadUnit(t) == Some(s[0])
    requires HeadLength(t) == 1 ==> !IsHigh(s[0]) && !IsLow(s[0])
    requires Shortest(t[HeadLength(t)..], s[1..])
    ensures Shortest(t, s)
  {
    var k := HeadLength(t);
    QuoteBodyLength(s);
    HeadIsShortest(t, s[0]);
    if LowerCase(t) && |t| == |QuoteBody(s)| + 1 {
      TailIsLowerCase(t, s[0]);
      assert t == t[..k] + t[k..];
      QuoteBodyCons(s, [QUOTE]);
    }
  }

  lemma TailIsLowerCase(t: Text, u: Unit)
    requires LowerCase(t) && t != [] && t[0] != QUOTE && HeadUnit(t) == Some(u)
    ensures LowerCase(t[HeadLength(t)..])
    ensures HeadLength(t) == 6 ==> forall k :: 2 <= k < 6 ==> !(0x41 <= t[k] <= 0x46)
  {
  }

  lemma HeadIsShortest(t: Text, u: Unit)
    requires t != [] && t[0] != QUOTE && HeadUnit(t) == Some(u) && (HeadLength(t) == 1 ==> !IsHigh(u) && !IsLow(u))
    ensures |EscapeUnit(u)| <= HeadLength(t) <= |t|
    ensures LowerCase(t) && |EscapeUnit(u)| == HeadLength(t) ==> t[..HeadLength(t)] == EscapeUnit(u)
  {
    var k := HeadLength(t);
    if k == 1 {
      assert t[..1] == [t[0]];
    } else if k == 2 {
      assert t[..2] == [t[0], t[1]];
    } else if LowerCase(t) {
      TailIsLowerCase(t, u);
      LowerHex(t, u);
    }
  }

  lemma LowerHex(t: Text, u: Unit)
    requires |t| >= 6 && t[0] == BACKSLASH && t[1] == 0x75 && FourHex(t) && u == HexUnit(t)
    requires forall k :: 2 <= k < 6 ==> !(0x41 <= t[k] <= 0x46)
    ensures t[..6] == HexEscape(u)
  {
    var a, b, c, d := HexValue(t[2]).value, HexValue(t[3]).value, HexValue(t[4]).value, HexValue(t[5]).value;
    HexDigits(a, b, c, d);
    LowerDigit(t[2]);
    LowerDigit(t[3]);
    LowerDigit(t[4]);
    LowerDigit(t[5]);
    assert t[..6] == [t[0], t[1], t[2], t[3], t[4], t[5]];
  }

  lemma LowerDigit(h: Unit)
    requires HexValue(h).Some? && !(0x41 <= h <= 0x46)
    ensures HexValue(h).value < 16 && HexDigit(HexValue(h).value) == h
  {
  }

  lemma HexDigits(a: nat, b: nat, c: nat, d: nat)
    requires a < 16 && b < 16 && c < 16 && d < 16
    ensures var u := a * 4096 + b * 256 + c * 16 + d;
      u / 4096 == a && u / 256 % 16 == b && u / 16 % 16 == c && u % 16 == d
  {
    var u := a * 4096 + b * 256 + c * 16 + d;
    assert u / 16 == a * 256 + b * 16 + c && u / 256 == a * 16 + b;
  }

  /** What may follow a value: nothing that would lengthen a number. */
  predicate Stops(rest: Text) { rest == [] || !InNumber(rest[0]) }

  lemma {:induction false} NumberStops(t: Text, rest: Text)
    requires forall u :: u in t ==> InNumber(u)
    requires Stops(rest)
    ensures NumberLength(t + rest) == |t|
  {
    if t == [] {
      assert t + rest == rest;
    } else {
      assert (t + rest)[1..] == t[1..] + rest;
      NumberStops(t[1..], rest);
    }
  }

  lemma WordsParse(rest: Text)
    ensures ParseValue(UNDEFINED_WORD + rest) == Parsed(DUndefined, rest)
    ensures ParseValue(NULL_WORD + rest) == Parsed(DNull, rest)
    ensures ParseValue(TRUE_WORD + rest) == Parsed(DBool(true), rest)
    ensures ParseValue(FALSE_WORD + rest) == Parsed(DBool(false), rest)
  {
    assert (UNDEFINED_WORD + rest)[|UNDEFINED_WORD|..] == rest;
    assert (NULL_WORD + rest)[|NULL_WORD|..] == rest;
    assert (TRUE_WORD + rest)[|TRUE_WORD|..] == rest;
    assert (FALSE_WORD + rest)[|FALSE_WORD|..] == rest;
    assert (UNDEFINED_WORD + rest)[0] == 0x75 && (NULL_WORD + rest)[0] == 0x6E;
    assert (TRUE_WORD + rest)[0] == 0x74 && (FALSE_WORD + rest)[0] == 0x66;
  }

  lemma TokenParses(t: Text, rest: Text)
    requires IsToken(t) && Stops(rest)
    ensures ParseValue(t + rest) == Parsed(DNumber(t), rest)
  {
    NumberStops(t, rest);
    assert (t + rest)[..|t|] == t && (t + rest)[|t|..] == rest;
  }

  lemma ArrayParses(v: Value, rest: Text)
    requires v.Array? && Supported(v)
    requires v.slots != [] ==>
      ParseItems(Join(PrintSlots(v.slots)) + [CLOSE_BRACKET] + rest) == Parsed(DenoteSlots(v.slots), rest)
    ensures ParseValue(Print(v) + rest) == Parsed(Denote(v), rest)
  {
    var s := Print(v) + rest;
    if v.slots == [] {
      assert s == [OPEN_BRACKET, CLOSE_BRACKET] + rest;
      assert s[2..] == rest;
    } else {
      var inner := Join(PrintSlots(v.slots)) + [CLOSE_BRACKET] + rest;
      assert s == [OPEN_BRACKET] + inner;
      assert s[1..] == inner;
      BracketNeverParses(inner);
      assert s[0] == OPEN_BRACKET && s[1] == inner[0];
    }
  }

  lemma BracesParse(inner: Text)
    requires inner != [] && inner[0] == QUOTE && ParseFields(inner).Parsed?
    ensures ParseValue([OPEN_BRACE] + inner) == Parsed(DObject(ParseFields(inner).value), ParseFields(inner).rest)
  {
    assert ([OPEN_BRACE] + inner)[1..] == inner;
  }

  lemma EmptyBracesParse(rest: Text)
    ensures ParseValue([OPEN_BRACE, CLOSE_BRACE] + rest) == Parsed(DObject(map[]), rest)
  {
    assert ([OPEN_BRACE, CLOSE_BRACE] + rest)[2..] == rest;
  }

  lemma ObjectParses(v: Value, rest: Text)
    requires v.Object? && Valid(v) && Supported(v)
    requires v.fields != [] ==>
      && Join(PrintFields(v, Sorted(v.fields))) != [] && Join(PrintFields(v, Sorted(v.fields)))[0] == QUOTE
      && ParseFields(Join(PrintFields(v, Sorted(v.fields))) + [CLOSE_BRACE] + rest)
         == Parsed(DenoteFields(Sorted(v.fields)), rest)
    ensures ParseValue(Print(v) + rest) == Parsed(Denote(v), rest)
  {
    if v.fields == [] {
      assert Sorted(v.fields) == [];
      assert Print(v) == [OPEN_BRACE, CLOSE_BRACE];
      EmptyBracesParse(rest);
    } else {
      var body := Join(PrintFields(v, Sorted(v.fields)));
      var inner := body + [CLOSE_BRACE] + rest;
      Regroup3([OPEN_BRACE] + body, [CLOSE_BRACE], rest);
      Regroup3([OPEN_BRACE], body, [CLOSE_BRACE] + rest);
      Regroup3(body, [CLOSE_BRACE], rest);
      BracesParse(inner);
      SortedAscends(v.fields);
      AscendingIsDistinct(Sorted(v.fields));
      SameFieldsDenoteAlike(Sorted(v.fields), v.fields);
    }
  }

  /** The parser recovers what any supported input denotes, whatever follows it. */
  lemma {:induction false} ParseInvertsPrint(v: Value, rest: Text)
    requires Valid(v) && Supported(v) && Stops(rest)
    ensures ParseValue(Print(v) + rest) == Parsed(Denote(v), rest)
    decreases v, 1, 0
  {
    match v
    case Number(n) => TokenParses(Print(v), rest);
    case Str(text) => QuoteRoundTrip(text, rest);
    case Array(slots) =>
      if slots != [] {
        ItemsInvert(slots, rest);
      }
      ArrayParses(v, rest);
    case Object(fields) =>
      if fields != [] {
        FieldsInvert(v, Sorted(fields), rest);
      }
      ObjectParses(v, rest);
    case _ => WordsParse(rest);
  }

  lemma BracketNeverParses(s: Text)
    ensures ParseItems(s).Parsed? ==> s != [] && s[0] != CLOSE_BRACKET
  {
    assert s != [] && s[0] == CLOSE_BRACKET ==> ParseValue(s).Failed?;
  }

  lemma {:induction false} SlotInverts(s: Slot, rest: Text)
    requires s.Item? ==> Valid(s.value) && Supported(s.value)
    requires Stops(rest)
    ensures ParseValue(PrintSlot(s) + rest) == Parsed(DenoteSlot(s), rest)
    decreases s, 2, 0
  {
    match s
    case Hole => WordsParse(rest);
    case Item(v) => ParseInvertsPrint(v, rest);
  }

  lemma ItemParses(text: Text, doc: Doc, after: Text)
    requires ParseValue(text + after) == Parsed(doc, after) && after != []
    ensures after[0] == CLOSE_BRACKET ==> ParseItems(text + after) == Parsed([doc], after[1..])
    ensures after[0] == COMMA && ParseItems(after[1..]).Parsed? ==>
      ParseItems(text + after) == Parsed([doc] + ParseItems(after[1..]).value, ParseItems(after[1..]).rest)
  {
  }

  lemma {:induction false} ItemsInvert(slots: seq<Slot>, rest: Text)
    requires slots != []
    requires forall s :: s in slots && s.Item? ==> Valid(s.value) && Supported(s.value)
    ensures ParseItems(Join(PrintSlots(slots)) + [CLOSE_BRACKET] + rest) == Parsed(DenoteSlots(slots), rest)
    decreases slots, 0, 0
  {
    var text := PrintSlot(slots[0]);
    if |slots| == 1 {
      var after := [CLOSE_BRACKET] + rest;
      assert PrintSlots(slots) == [text] && DenoteSlots(slots) == [DenoteSlot(slots[0])];
      Regroup3(text, [CLOSE_BRACKET], rest);
      SlotInverts(slots[0], after);
      ItemParses(text, DenoteSlot(slots[0]), after);
      assert after[1..] == rest;
    } else {
      var tail := Join(PrintSlots(slots[1..])) + [CLOSE_BRACKET];
      var after := [COMMA] + (tail + rest);
      assert Join(PrintSlots(slots)) + [CLOSE_BRACKET] + rest == text + after;
      SlotInverts(slots[0], after);
      ItemParses(text, DenoteSlot(slots[0]), after);
      assert after[1..] == tail + rest;
      ItemsInvert(slots[1..], rest);
    }
  }

  lemma FieldParses(key: Text, text: Text, doc: Doc, after: Text)
    requires ParseValue(text + after) == Parsed(doc, after) && after != []
    ensures after[0] == CLOSE_BRACE ==>
      ParseFields(Quote(key) + ([COLON] + (text + after))) == Parsed(map[key := doc], after[1..])
    ensures after[0] == COMMA && ParseFields(after[1..]).Parsed? ==>
      ParseFields(Quote(key) + ([COLON] + (text + after)))
      == Parsed(ParseFields(after[1..]).value[key := doc], ParseFields(after[1..]).rest)
  {
    QuoteRoundTrip(key, [COLON] + (text + after));
    assert ([COLON] + (text + after))[1..] == text + after;
  }

  lemma FieldsText(parent: Value, fields: seq<Field>, rest: Text)
    requires parent.Object? && Supported(parent)
    requires fields != [] && forall f :: f in fields ==> f in parent.fields
    ensures fields[0] in parent.fields
    ensures Join(PrintFields(parent, fields)) != [] && Join(PrintFields(parent, fields))[0] == QUOTE
    ensures Join(PrintFields(parent, fields)) + [CLOSE_BRACE] + rest
         == Quote(fields[0].key) + ([COLON] + (Print(fields[0].value) + FieldsAfter(parent, fields, rest)))
  {
    var parts := PrintFields(parent, fields);
    assert fields[0] in parent.fields;
    var quoted, value := Quote(fields[0].key), Print(fields[0].value);
    assert parts[0] == quoted + [COLON] + value;
    if |fields| == 1 {
      Regroup5(quoted, [COLON], value, [CLOSE_BRACE], rest);
    } else {
      var tail := Join(PrintFields(parent, fields[1..]));
      assert parts[1..] == PrintFields(parent, fields[1..]);
      Regroup3(quoted + [COLON] + value + [COMMA] + tail, [CLOSE_BRACE], rest);
      Regroup3(quoted + [COLON] + value + [COMMA], tail, [CLOSE_BRACE] + rest);
      Regroup3(tail, [CLOSE_BRACE], rest);
      Regroup5(quoted, [COLON], value, [COMMA], tail + [CLOSE_BRACE] + rest);
    }
  }

  /** What follows the first field's value. */
  function FieldsAfter(parent: Value, fields: seq<Field>, rest: Text): (after: Text)
    requires parent.Object? && Supported(parent)
    requires fields != [] && forall f :: f in fields ==> f in parent.fields
    ensures after != []
  {
    if |fields| == 1 then [CLOSE_BRACE] + rest
    else [COMMA] + (Join(PrintFields(parent, fields[1..])) + [CLOSE_BRACE] + rest)
  }

  lemma {:induction false} FieldsInvert(parent: Value, fields: seq<Field>, rest: Text)
    requires parent.Object? && Valid(parent) && Supported(parent)
    requires fields != [] && forall f :: f in fields ==> f in parent.fields
    ensures Join(PrintFields(parent, fields)) != [] && Join(PrintFields(parent, fields))[0] == QUOTE
    ensures ParseFields(Join(PrintFields(parent, fields)) + [CLOSE_BRACE] + rest)
         == Parsed(DenoteFields(fields), rest)
    decreases parent, 0, |fields|
  {
    FieldsText(parent, fields, rest);
    var f, after := fields[0], FieldsAfter(parent, fields, rest);
    ParseInvertsPrint(f.value, after);
    FieldParses(f.key, Print(f.value), Denote(f.value), after);
    if |fields| == 1 {
      assert after[1..] == rest;
      assert DenoteFields(fields[1..]) == map[];
    } else {
      FieldsInvert(parent, fields[1..], rest);
      assert after[1..] == Join(PrintFields(parent, fields[1..])) + [CLOSE_BRACE] + rest;
    }
  }

  // ------------------------------------------------------------ key order is forgotten

  lemma FirstKeyIsFresh(fields: seq<Field>)
    requires DistinctKeys(fields) && fields != []
    ensures fields == [fields[0]] + fields[1..] && DistinctKeys(fields[1..])
    ensures forall f :: f in fields[1..] ==> f in fields && f.key != fields[0].key
  {
    forall f | f in fields[1..] ensures f in fields && f.key != fields[0].key {
      var i :| 0 <= i < |fields[1..]| && fields[1..][i] == f;
      assert fields[i + 1] == f;
    }
  }

  lemma {:induction false} FieldsDenoteMap(fields: seq<Field>)
    requires DistinctKeys(fields) && forall f :: f in fields ==> Supported(f.value)
    ensures forall k :: k in DenoteFields(fields) <==> exists f :: f in fields && f.key == k
    ensures forall f :: f in fields ==> f.key in DenoteFields(fields) && DenoteFields(fields)[f.key] == Denote(f.value)
  {
    if fields != [] {
      FirstKeyIsFresh(fields);
      FieldsDenoteMap(fields[1..]);
      forall k | k in DenoteFields(fields) ensures exists f :: f in fields && f.key == k {
        if k == fields[0].key {
          assert fields[0] in fields;
        } else {
          assert k in DenoteFields(fields[1..]);
          var f :| f in fields[1..] && f.key == k;
          assert f in fields;
        }
      }
      forall f | f in fields
        ensures f.key in DenoteFields(fields) && DenoteFields(fields)[f.key] == Denote(f.value)
      {
        assert f == fields[0] || f in fields[1..];
      }
    }
  }

  lemma SameFieldsDenoteAlike(a: seq<Field>, b: seq<Field>)
    requires DistinctKeys(a) && DistinctKeys(b)
    requires forall f :: f in a <==> f in b
    requires forall f :: f in a ==> Supported(f.value)
    ensures DenoteFields(a) == DenoteFields(b)
  {
    FieldsDenoteMap(a);
    FieldsDenoteMap(b);
    var m, n := DenoteFields(a), DenoteFields(b);
    forall k ensures k in m <==> k in n {
      if k in m {
        var f :| f in a && f.key == k;
        assert f in b;
      }
      if k in n {
        var f :| f in b && f.key == k;
        assert f in a;
      }
    }
    forall k | k in m ensures m[k] == n[k] {
      var f :| f in a && f.key == k;
    }
  }

  function Keys(fields: seq<Field>): (keys: seq<Text>)
    ensures |keys| == |fields|
    ensures forall i :: 0 <= i < |keys| ==> keys[i] == fields[i].key
  {
    seq(|fields|, i requires 0 <= i < |fields| => fields[i].key)
  }

  predicate AscendingKeys(keys: seq<Text>)
  {
    forall i, j :: 0 <= i < j < |keys| ==> Before(keys[i], keys[j])
  }

  lemma TailMember(keys: seq<Text>, k: Text)
    requires AscendingKeys(keys) && keys != []
    ensures k in keys[1..] <==> k in keys && k != keys[0]
  {
    if k in keys[1..] {
      var i :| 0 <= i < |keys[1..]| && keys[1..][i] == k;
      assert keys[i + 1] == k;
      BeforeIsTotal(keys[0], k);
    }
  }

  lemma SameFirst(a: seq<Text>, b: seq<Text>)
    requires AscendingKeys(a) && AscendingKeys(b) && a != [] && b != []
    requires a[0] in b && b[0] in a
    ensures a[0] == b[0]
  {
    BeforeIsTotal(a[0], b[0]);
  }

  lemma NoMembers(keys: seq<Text>)
    ensures keys == [] <==> forall k :: k !in keys
  {
    if keys != [] {
      assert keys[0] in keys;
    }
  }

  /** One set of keys has one ascending order. */
  lemma {:induction false} AscendingIsUnique(a: seq<Text>, b: seq<Text>)
    requires AscendingKeys(a) && AscendingKeys(b)
    requires forall k :: k in a <==> k in b
    ensures a == b
  {
    NoMembers(a);
    NoMembers(b);
    if a != [] {
      assert a[0] in b;
      assert b[0] in a;
      SameFirst(a, b);
      forall k ensures k in a[1..] <==> k in b[1..] {
        TailMember(a, k);
        TailMember(b, k);
      }
      AscendingIsUnique(a[1..], b[1..]);
      assert a == [a[0]] + a[1..] && b == [b[0]] + b[1..];
    }
  }

  /** Inputs that denote one document are printed alike. */
  lemma {:induction false} DenotedAlikePrintedAlike(v: Value, w: Value)
    requires Valid(v) && Supported(v) && Valid(w) && Supported(w)
    requires Denote(v) == Denote(w)
    ensures Print(v) == Print(w)
    decreases v, 1, 0
  {
    match v
    case Array(slots) => SlotsPrintedAlike(slots, w.slots);
    case Object(fields) =>
      var a, b := Sorted(fields), Sorted(w.fields);
      SortedAscends(fields);
      SortedAscends(w.fields);
      FieldsDenoteMap(fields);
      FieldsDenoteMap(w.fields);
      forall k ensures k in Keys(a) <==> k in Keys(b) {
        KeyIsDenoted(fields, k);
        KeyIsDenoted(w.fields, k);
      }
      AscendingIsUnique(Keys(a), Keys(b));
      FieldsPrintedAlike(v, a, w, b);
    case _ =>
  }

  lemma KeyIsDenoted(fields: seq<Field>, k: Text)
    requires DistinctKeys(fields) && forall f :: f in fields ==> Supported(f.value)
    ensures k in Keys(Sorted(fields)) <==> k in DenoteFields(fields)
  {
    FieldsDenoteMap(fields);
    var s := Sorted(fields);
    if k in Keys(s) {
      var i :| 0 <= i < |s| && s[i].key == k;
      assert s[i] in fields;
    }
    if k in DenoteFields(fields) {
      var f :| f in fields && f.key == k;
      assert f in s;
      var i :| 0 <= i < |s| && s[i] == f;
      assert Keys(s)[i] == k;
    }
  }

  lemma {:induction false} SlotsPrintedAlike(a: seq<Slot>, b: seq<Slot>)
    requires forall s :: s in a && s.Item? ==> Valid(s.value) && Supported(s.value)
    requires forall s :: s in b && s.Item? ==> Valid(s.value) && Supported(s.value)
    requires DenoteSlots(a) == DenoteSlots(b)
    ensures PrintSlots(a) == PrintSlots(b)
    decreases a, 0, 0
  {
    if a != [] {
      assert |b| == |DenoteSlots(b)| == |a|;
      assert DenoteSlot(a[0]) == DenoteSlots(a)[0] == DenoteSlots(b)[0] == DenoteSlot(b[0]);
      assert DenoteSlots(a[1..]) == DenoteSlots(a)[1..] == DenoteSlots(b)[1..] == DenoteSlots(b[1..]);
      SlotPrintedAlike(a[0], b[0]);
      SlotsPrintedAlike(a[1..], b[1..]);
    } else {
      assert |b| == |DenoteSlots(b)| == 0;
    }
  }

  lemma {:induction false} SlotPrintedAlike(s: Slot, t: Slot)
    requires s.Item? ==> Valid(s.value) && Supported(s.value)
    requires t.Item? ==> Valid(t.value) && Supported(t.value)
    requires DenoteSlot(s) == DenoteSlot(t)
    ensures PrintSlot(s) == PrintSlot(t)
    decreases s, 2, 0
  {
    if s.Item? && t.Item? {
      DenotedAlikePrintedAlike(s.value, t.value);
    }
  }

  lemma {:induction false} FieldsPrintedAlike(v: Value, a: seq<Field>, w: Value, b: seq<Field>)
    requires v.Object? && Valid(v) && Supported(v) && w.Object? && Valid(w) && Supported(w)
    requires DenoteFields(v.fields) == DenoteFields(w.fields)
    requires (forall f :: f in a ==> f in v.fields) && (forall f :: f in b ==> f in w.fields)
    requires Keys(a) == Keys(b)
    ensures PrintFields(v, a) == PrintFields(w, b)
    decreases v, 0, |a|
  {
    assert |a| == |Keys(a)| == |Keys(b)| == |b|;
    if a != [] {
      assert a[0] in v.fields && b[0] in w.fields;
      SameKeys(a, b);
      FieldsDenoteMap(v.fields);
      FieldsDenoteMap(w.fields);
      DenotedAlikePrintedAlike(a[0].value, b[0].value);
      FieldsPrintedAlike(v, a[1..], w, b[1..]);
    }
  }

  lemma SameKeys(a: seq<Field>, b: seq<Field>)
    requires Keys(a) == Keys(b) && a != []
    ensures b != [] && a[0].key == b[0].key && Keys(a[1..]) == Keys(b[1..])
  {
    assert |a| == |Keys(a)| == |Keys(b)| == |b|;
    assert a[0].key == Keys(a)[0] == Keys(b)[0] == b[0].key;
    assert Keys(a[1..]) == Keys(a)[1..] == Keys(b)[1..] == Keys(b[1..]);
  }

  /** Two inputs are printed alike exactly when they denote one document. */
  lemma PrintsAlikeIff(v: Value, w: Value)
    requires Valid(v) && Supported(v) && Valid(w) && Supported(w)
    ensures Print(v) == Print(w) <==> Denote(v) == Denote(w)
  {
    ParseInvertsPrint(v, []);
    ParseInvertsPrint(w, []);
    assert Print(v) + [] == Print(v) && Print(w) + [] == Print(w);
    if Denote(v) == Denote(w) {
      DenotedAlikePrintedAlike(v, w);
    }
  }

  /** A field that is present but undefined is not a missing field. */
  lemma UndefinedFieldIsNotMissing(fields: seq<Field>, k: Text)
    requires Valid(Object(fields)) && Supported(Object(fields))
    requires forall f :: f in fields ==> f.key != k
    ensures Valid(Object(fields + [Field(k, Undefined)])) && Supported(Object(fields + [Field(k, Undefined)]))
    ensures Print(Object(fields + [Field(k, Undefined)])) != Print(Object(fields))
  {
    var more := fields + [Field(k, Undefined)];
    forall i, j | 0 <= i < j < |more| ensures more[i].key != more[j].key {
      assert more[i] in fields;
    }
    forall f | f in more ensures Valid(f.value) && Supported(f.value) {
      assert f in fields || f == Field(k, Undefined);
    }
    PrintsAlikeIff(Object(more), Object(fields));
    FieldsDenoteMap(more);
    FieldsDenoteMap(fields);
    assert Field(k, Undefined) in more;
  }

  // ------------------------------------------------------------ the source's functions

  lemma NoErrorIffSupported(v: Value, path: seq<Step>)
    ensures FirstError(v, path).None? <==> Supported(v)
  {
    ErrorIffUnsupported(v, path);
  }

  /** `encodeKeyValue`: validates and prints in one pass. */
  method EncodeKeyValue(value: Value, path: seq<Step>) returns (r: Result<Text, KeyError>)
    ensures Supported(value) ==> r == Ok(Print(value))
    ensures !Supported(value) ==> FirstError(value, path).Some? && r == Err(FirstError(value, path).value)
    decreases value, 1, 0
  {
    NoErrorIffSupported(value, path);
    match value
    case Undefined => r := Ok(UNDEFINED_WORD);
    case Null => r := Ok(NULL_WORD);
    case Str(text) => r := Ok(Quote(text));
    case Bool(b) => r := Ok(if b then TRUE_WORD else FALSE_WORD);
    case Number(n) =>
      match n {
        case NonFinite => r := Err(NonFiniteNumber(path));
        case NegativeZero => r := Ok(ZERO_TOKEN);
        case Finite(token) => r := Ok(token);
      }
    case Array(slots) => r := EncodeArray(value, path);
    case Object(fields) => r := EncodeObject(value, path);
    case Unsupported => r := Err(UnsupportedValue(path));
  }

  /** `encodeArray`: holes are encoded as undefined. */
  method EncodeArray(value: Value, path: seq<Step>) returns (r: Result<Text, KeyError>)
    requires value.Array?
    ensures Supported(value) ==> r == Ok(Print(value))
    ensures !Supported(value) ==> FirstError(value, path).Some? && r == Err(FirstError(value, path).value)
    decreases value, 0, 0
  {
    NoErrorIffSupported(value, path);
    var items: seq<Text> := [];
    var index := 0;
    while index < |value.slots|
      invariant 0 <= index <= |value.slots|
      invariant Supported(value) ==> PrintSlots(value.slots) == items + PrintSlots(value.slots[index..])
      invariant FirstError(value, path) == FirstSlotError(value.slots[index..], path, index)
    {
      var slot := value.slots[index];
      assert slot in value.slots;
      var encoded: Result<Text, KeyError> := Ok(UNDEFINED_WORD);
      if slot.Item? {
        NoErrorIffSupported(slot.value, path + [Index(index)]);
        encoded := EncodeKeyValue(slot.value, path + [Index(index)]);
      }
      assert value.slots[index..][1..] == value.slots[index + 1..];
      if encoded.Err? {
        return encoded;
      }
      items := items + [encoded.value];
      index := index + 1;
    }
    assert items + [] == items;
    r := Ok([OPEN_BRACKET] + Join(items) + [CLOSE_BRACKET]);
  }

  /** `encodeObject`: keys in sorted order. */
  method EncodeObject(value: Value, path: seq<Step>) returns (r: Result<Text, KeyError>)
    requires value.Object?
    ensures Valid(value) && r.Ok? ==> Supported(value) && PrintedInOrder(value, r.value)
    ensures Supported(value) ==> r == Ok(Print(value))
    ensures !Supported(value) ==> FirstError(value, path).Some? && r == Err(FirstError(value, path).value)
    decreases value, 0, 0
  {
    NoErrorIffSupported(value, path);
    var sorted := Sorted(value.fields);
    var parts: seq<Text> := [];
    for i := 0 to |sorted|
      invariant Supported(value) ==> parts == PrintFields(value, sorted)[..i]
      invariant FirstError(value, path) == FirstFieldError(value, sorted[i..], path)
    {
      var f := sorted[i];
      assert f in value.fields;
      FieldErrorFrom(value, sorted, path, i);
      NoErrorIffSupported(f.value, path + [Key(f.key)]);
      var encoded := EncodeKeyValue(f.value, path + [Key(f.key)]);
      if encoded.Err? {
        return encoded;
      }
      parts := parts + [Quote(f.key) + [COLON] + encoded.value];
      if Supported(value) {
        PartPrinted(value, sorted, i);
      }
    }
    assert sorted[|sorted|..] == [];
    assert Supported(value) ==> parts == PrintFields(value, sorted);
    r := Ok([OPEN_BRACE] + Join(parts) + [CLOSE_BRACE]);
    ObjectPrintedInOrder(value);
  }

  lemma FieldErrorFrom(v: Value, fields: seq<Field>, path: seq<Step>, i: nat)
    requires v.Object? && i < |fields| && forall f :: f in fields ==> f in v.fields
    ensures FirstFieldError(v, fields[i..], path)
         == var here := FirstError(fields[i].value, path + [Key(fields[i].key)]);
            if here.Some? then here else FirstFieldError(v, fields[i + 1..], path)
  {
    assert fields[i..][0] == fields[i] && fields[i..][1..] == fields[i + 1..];
  }

  lemma PartPrinted(v: Value, fields: seq<Field>, i: nat)
    requires v.Object? && Supported(v) && i < |fields| && forall f :: f in fields ==> f in v.fields
    ensures FieldText(fields[i], PrintFields(v, fields)[i])
    ensures PrintFields(v, fields)[..i + 1] == PrintFields(v, fields)[..i] + [PrintFields(v, fields)[i]]
  {
    PartsAreFields(v, fields);
    TakeNext(PrintFields(v, fields), i);
  }

  lemma TakeNext(parts: seq<Text>, i: nat)
    requires i < |parts|
    ensures parts[..i + 1] == parts[..i] + [parts[i]]
  {
  }

  /** `canonicalArgs`: versioned, never too long. */
  method CanonicalArgs(args: Value) returns (r: Result<Text, KeyError>)
    ensures Supported(args) ==> r == Ok(VERSION_PREFIX + Print(args))
    ensures !Supported(args) ==> FirstError(args, []).Some? && r == Err(FirstError(args, []).value)
  {
    r := EncodeKeyValue(args, []);
    if r.Ok? {
      r := Ok(VERSION_PREFIX + r.value);
    }
  }

  /** `canonicalKey`: versioned and capped. */
  method CanonicalKeyOf(key: Value) returns (r: Result<Text, KeyError>)
    ensures r.Ok? <==> Supported(key) && |VERSION_PREFIX + Print(key)| <= MAX_CANONICAL_KEY_LENGTH
    ensures r.Ok? ==> r.value == VERSION_PREFIX + Print(key)
    ensures r.Err? ==> if Supported(key)
              then r.error == TooLong(MAX_CANONICAL_KEY_LENGTH, |VERSION_PREFIX + Print(key)|)
              else FirstError(key, []).Some? && r.error == FirstError(key, []).value
  {
    r := CanonicalArgs(key);
    if r.Ok? && |r.value| > MAX_CANONICAL_KEY_LENGTH {
      r := Err(TooLong(MAX_CANONICAL_KEY_LENGTH, |r.value|));
    }
  }
}
