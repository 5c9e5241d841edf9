/** The codec: canonical JSON out, Buffers revived in; and the Buffer check that stored values must pass. */
module Codec {
  import opened AuthTypes
  import opened KeyOrder

  type Byte = b: int | 0 <= b < 256

  /** A JavaScript value. An object lists its own keys in enumeration order; `Uint8` is a Uint8Array that
      is not a Buffer; `NotFinite` is NaN or an infinity. */
  datatype Tree =
    | Undefined | NullValue | Bool(b: bool) | Num(n: real) | NotFinite | Str(s: string)
    | Buffer(bytes: seq<Byte>) | Uint8(bytes: seq<Byte>) | Date(iso: string)
    | Arr(items: seq<Tree>)
    | Obj(order: seq<string>, members: map<string, Tree>)

  /** JSON text, as a tree: the members of an object are in the order in which they are written. */
  datatype Json =
    | JNull | JBool(b: bool) | JNum(n: real) | JStr(s: string)
    | JArr(items: seq<Json>)
    | JObj(order: seq<string>, members: map<string, Json>)

  /** Each object lists each of its keys once, and the text of a date is no type tag. */
  predicate WellFormed(t: Tree) {
    match t
    case Date(iso) => iso != "Buffer"
    case Arr(items) => forall i :: 0 <= i < |items| ==> WellFormed(items[i])
    case Obj(order, members) =>
      NoDuplicates(order) && Elements(order) == members.Keys && forall k :: k in members ==> WellFormed(members[k])
    case _ => true
  }

  // ----- writing -----

  /** The listed keys that are in a set, in the order listed. */
  function Kept(order: seq<string>, keys: set<string>): seq<string> {
    if order == [] then []
    else (if order[0] in keys then [order[0]] else []) + Kept(order[1..], keys)
  }

  function ByteItems(bytes: seq<Byte>): seq<Json> {
    seq(|bytes|, i requires 0 <= i < |bytes| => JNum(bytes[i] as real))
  }

  function BufferMembers(bytes: seq<Byte>): map<string, Json> {
    map["type" := JStr("Buffer"), "data" := JArr(ByteItems(bytes))]
  }

  function Decimal(n: nat): string {
    (if n < 10 then "" else Decimal(n / 10)) + ["0123456789"[n % 10]]
  }

  function IndexKeys(n: nat): seq<string> {
    if n == 0 then [] else IndexKeys(n - 1) + [Decimal(n - 1)]
  }

  function IndexMembers(bytes: seq<Byte>): map<string, Json> {
    var n := |bytes|;
    if n == 0 then map[] else IndexMembers(bytes[..n - 1])[Decimal(n - 1) := JNum(bytes[n - 1] as real)]
  }

  /** The keys JSON.stringify writes: a member that is undefined is dropped. */
  function Defined(members: map<string, Tree>): set<string> {
    set k | k in members && !members[k].Undefined?
  }

  /** What JSON.stringify writes for a value inside another one, with the codec's stable replacer or
      without any replacer. A Buffer's toJSON runs before the replacer, so the replacer sorts what toJSON
      made; a Uint8Array has no toJSON, so only the replacer makes it a Buffer. */
  function Text(t: Tree, stable: bool): Json {
    match t
    case Undefined => JNull
    case NullValue => JNull
    case NotFinite => JNull
    case Bool(b) => JBool(b)
    case Num(n) => JNum(n)
    case Str(s) => JStr(s)
    case Date(iso) => JStr(iso)
    case Buffer(bytes) => JObj(if stable then ["data", "type"] else ["type", "data"], BufferMembers(bytes))
    case Uint8(bytes) =>
      if stable then JObj(["type", "data"], BufferMembers(bytes))
      else JObj(IndexKeys(|bytes|), IndexMembers(bytes))
    case Arr(items) => JArr(seq(|items|, i requires 0 <= i < |items| => Text(items[i], stable)))
    case Obj(order, members) =>
      var kept := Kept(order, Defined(members));
      JObj(if stable then Sort(kept) else kept, map k | k in Defined(members) :: Text(members[k], stable))
  }

  /** The text of a value to store; undefined has none, and the encoder throws. */
  function Encode(t: Tree): Option<Json> {
    if t.Undefined? then None else Some(Text(t, true))
  }

  // ----- reading -----

  /** How JavaScript reads text where a byte is asked for: `number` is the byte a text denotes, 0 when it is no
      numeral, and `utf8` is the text of a Buffer. */
  datatype Coercion = Coercion(number: string -> Byte, utf8: seq<Byte> -> string)

  /** One item of the array given to Buffer.from, as a byte: numbers are truncated and taken modulo 256, a text
      or a Buffer counts as the numeral it spells, an array as the text of its only item; all else is 0. */
  function ToByte(t: Tree, c: Coercion): Byte {
    match t
    case Bool(b) => if b then 1 else 0
    case Arr(items) => if |items| == 1 then TextToByte(items[0], c) else 0
    case _ => TextToByte(t, c)
  }

  /** The same for an item that went through its text, as those of a nested array do. */
  function TextToByte(t: Tree, c: Coercion): Byte {
    match t
    case Num(n) => (if n < 0.0 then -((-n).Floor) else n.Floor) % 256
    case Str(s) => c.number(s)
    case Buffer(bytes) => c.number(c.utf8(bytes))
    case Arr(items) => if |items| == 1 then TextToByte(items[0], c) else 0
    case _ => 0
  }

  function BytesOf(items: seq<Tree>, c: Coercion): seq<Byte> {
    seq(|items|, i requires 0 <= i < |items| => ToByte(items[i], c))
  }

  /** Bytes as Buffer.from takes them: a number is truncated towards zero and reduced modulo 256, true counts as 1, an
      array as its only item unless that is true, and whatever is no numeral as 0. */
  lemma ItemsCountAsInJavaScript(n: real, s: string, bytes: seq<Byte>, t: Tree, u: Tree, c: Coercion)
    ensures n >= 0.0 ==> (n.Floor - ToByte(Num(n), c)) % 256 == 0
    ensures n < 0.0 ==> ((-n).Floor + ToByte(Num(n), c)) % 256 == 0
    ensures ToByte(Bool(true), c) == 1 && ToByte(Bool(false), c) == 0
    ensures ToByte(Str(s), c) == c.number(s) && ToByte(Buffer(bytes), c) == c.number(c.utf8(bytes))
    ensures ToByte(Arr([t]), c) == if t == Bool(true) then 0 else ToByte(t, c)
    ensures ToByte(Arr([]), c) == 0 == ToByte(Arr([t, u]), c) && ToByte(NullValue, c) == 0
  {
  }

  predicate Tagged(members: map<string, Tree>) {
    "type" in members && members["type"] == Str("Buffer") && "data" in members
  }

  predicate BufferShaped(members: map<string, Tree>) {
    Tagged(members) && members["data"].Arr?
  }

  function Parse(j: Json): Tree {
    match j
    case JNull => NullValue
    case JBool(b) => Bool(b)
    case JNum(n) => Num(n)
    case JStr(s) => Str(s)
    case JArr(items) => Arr(seq(|items|, i requires 0 <= i < |items| => Parse(items[i])))
    case JObj(order, members) => Obj(order, map k | k in members :: Parse(members[k]))
  }

  /** JSON.parse with the BufferJSON reviver: children first. */
  function ReviveUp(j: Json, c: Coercion): Tree {
    match j
    case JNull => NullValue
    case JBool(b) => Bool(b)
    case JNum(n) => Num(n)
    case JStr(s) => Str(s)
    case JArr(items) => Arr(seq(|items|, i requires 0 <= i < |items| => ReviveUp(items[i], c)))
    case JObj(order, members) => Reviver(order, map k | k in members :: ReviveUp(members[k], c), c)
  }

  /** BufferJSON.reviver on an object whose members have been revived. */
  function Reviver(order: seq<string>, members: map<string, Tree>, c: Coercion): Tree {
    if BufferShaped(members) then Buffer(BytesOf(members["data"].items, c)) else Obj(order, members)
  }

  /** deepBufferRevive: the object itself first, then its children. */
  function ReviveDown(t: Tree, c: Coercion): Tree {
    match t
    case Arr(items) => Arr(seq(|items|, i requires 0 <= i < |items| => ReviveDown(items[i], c)))
    case Obj(order, members) =>
      if BufferShaped(members) then Buffer(BytesOf(members["data"].items, c))
      else Obj(order, map k | k in members :: ReviveDown(members[k], c))
    case _ => t
  }

  function Decode(j: Json, c: Coercion): Tree {
    ReviveDown(ReviveUp(j, c), c)
  }

  /** deepBufferRevive as the source writes it, with its loop over the keys of an object. */
  method DeepBufferRevive(t: Tree, c: Coercion) returns (r: Tree)
    ensures r == ReviveDown(t, c)
    decreases t
  {
    if t.Obj? && BufferShaped(t.members) {
      return Buffer(BytesOf(t.members["data"].items, c));
    }
    if t.Arr? {
      var items: seq<Tree> := [];
      for i := 0 to |t.items|
        invariant |items| == i && forall j :: 0 <= j < i ==> items[j] == ReviveDown(t.items[j], c)
      {
        var item := DeepBufferRevive(t.items[i], c);
        items := items + [item];
      }
      return Arr(items);
    }
    if t.Obj? {
      var result: map<string, Tree> := map[];
      var keys := t.members.Keys;
      while keys != {}
        invariant keys <= t.members.Keys
        invariant result == map k | k in t.members && k !in keys :: ReviveDown(t.members[k], c)
        decreases keys
      {
        var k :| k in keys;
        var v := DeepBufferRevive(t.members[k], c);
        result := result[k := v];
        keys := keys - {k};
      }
      return Obj(t.order, result);
    }
    r := t;
  }

  lemma PrefixGrows(keys: seq<string>, i: nat)
    requires i < |keys|
    ensures Elements(keys[..i + 1]) == Elements(keys[..i]) + {keys[i]} && keys[i] in Elements(keys)
  {
    assert keys[..i + 1][i] == keys[i];
    forall x | x in Elements(keys[..i]) ensures x in Elements(keys[..i + 1]) {
      var j :| 0 <= j < i && keys[..i][j] == x;
      assert keys[..i + 1][j] == x;
    }
  }

  lemma CopyOneMore(members: map<string, Tree>, keys: set<string>, k: string)
    requires k in members
    ensures Only(members, keys + {k}) == Only(members, keys)[k := members[k]]
  {
  }

  lemma CopyStartsAndEnds(members: map<string, Tree>)
    ensures Only(members, {}) == map[] && Only(members, members.Keys) == members
  {
  }

  /** The replacer's object case: the keys are sorted and the members copied in that order. */
  method StableReplaceObject(order: seq<string>, members: map<string, Tree>) returns (sorted: Tree)
    requires NoDuplicates(order) && Elements(order) == members.Keys
    ensures sorted == Obj(Sort(order), members) && Sorted(sorted.order)
  {
    var keys := Sort(order);
    SortSorts(order);
    CopyStartsAndEnds(members);
    assert Elements(keys[..0]) == {} && keys[..|keys|] == keys;
    hide Elements;
    hide Sort;
    hide Sorted;
    hide Only;
    var copy: map<string, Tree> := map[];
    for i := 0 to |keys|
      invariant copy == Only(members, Elements(keys[..i]))
    {
      PrefixGrows(keys, i);
      CopyOneMore(members, Elements(keys[..i]), keys[i]);
      copy := copy[keys[i] := members[keys[i]]];
    }
    sorted := Obj(keys, copy);
  }

  // ----- normal form -----

  /** What a value becomes by being stored, said without JSON: dates are strings, byte arrays and
      Buffer-shaped objects are Buffers, undefined members are gone (an undefined item is null), keys are in
      canonical order. */
  function Normal(t: Tree, c: Coercion): Tree {
    match t
    case Undefined => NullValue
    case NotFinite => NullValue
    case Date(iso) => Str(iso)
    case Uint8(bytes) => Buffer(bytes)
    case Arr(items) => Arr(seq(|items|, i requires 0 <= i < |items| => Normal(items[i], c)))
    case Obj(order, members) => NormalObject(order, map k | k in Defined(members) :: Normal(members[k], c), c)
    case _ => t
  }

  function NormalObject(order: seq<string>, kept: map<string, Tree>, c: Coercion): Tree {
    Reviver(Sort(Kept(order, kept.Keys)), kept, c)
  }

  // An object's image under each function, from the images of its members.

  lemma NormalIs(order: seq<string>, members: map<string, Tree>, kept: map<string, Tree>, c: Coercion)
    requires kept.Keys == Defined(members) && forall k :: k in kept ==> kept[k] == Normal(members[k], c)
    ensures Normal(Obj(order, members), c) == NormalObject(order, kept, c)
  {
    assert kept == map k | k in Defined(members) :: Normal(members[k], c);
  }

  lemma ReviveUpIs(order: seq<string>, members: map<string, Json>, revived: map<string, Tree>, c: Coercion)
    requires revived.Keys == members.Keys && forall k :: k in revived ==> revived[k] == ReviveUp(members[k], c)
    ensures ReviveUp(JObj(order, members), c) == Reviver(order, revived, c)
  {
    assert revived == map k | k in members :: ReviveUp(members[k], c);
  }

  lemma ReviveDownIs(order: seq<string>, members: map<string, Tree>, revived: map<string, Tree>, c: Coercion)
    requires revived.Keys == members.Keys && forall k :: k in revived ==> revived[k] == ReviveDown(members[k], c)
    ensures !BufferShaped(members) ==> ReviveDown(Obj(order, members), c) == Obj(order, revived)
  {
    assert revived == map k | k in members :: ReviveDown(members[k], c);
  }

  lemma TextIs(order: seq<string>, members: map<string, Tree>, stable: bool, written: map<string, Json>)
    requires written.Keys == Defined(members) && forall k :: k in written ==> written[k] == Text(members[k], stable)
    ensures Text(Obj(order, members), stable)
         == JObj(if stable then Sort(Kept(order, written.Keys)) else Kept(order, written.Keys), written)
  {
    assert written == map k | k in Defined(members) :: Text(members[k], stable);
  }

  /** Equal except for the order of keys, at every depth. */
  predicate SameUpToOrder(a: Tree, b: Tree) {
    match a
    case Arr(items) =>
      b.Arr? && |items| == |b.items| && forall i :: 0 <= i < |items| ==> SameUpToOrder(items[i], b.items[i])
    case Obj(order, members) =>
      b.Obj? && members.Keys == b.members.Keys && forall k :: k in members ==> SameUpToOrder(members[k], b.members[k])
    case _ => a == b
  }

  /** No date, byte array, undefined, non-finite number or Buffer-shaped plain object anywhere. */
  predicate Plain(t: Tree) {
    match t
    case Undefined => false
    case NotFinite => false
    case Date(_) => false
    case Uint8(_) => false
    case Arr(items) => forall i :: 0 <= i < |items| ==> Plain(items[i])
    case Obj(order, members) => !BufferShaped(members) && forall k :: k in members ==> Plain(members[k])
    case _ => true
  }

  lemma ByteRoundTrip(bytes: seq<Byte>, c: Coercion)
    ensures BytesOf(seq(|bytes|, i requires 0 <= i < |bytes| => ReviveUp(ByteItems(bytes)[i], c)), c) == bytes
    ensures BytesOf(seq(|bytes|, i requires 0 <= i < |bytes| => Parse(ByteItems(bytes)[i])), c) == bytes
  {
  }

  lemma BufferSurvives(order: seq<string>, bytes: seq<Byte>, c: Coercion)
    ensures ReviveUp(JObj(order, BufferMembers(bytes)), c) == Buffer(bytes)
  {
    ByteRoundTrip(bytes, c);
    assert ReviveUp(BufferMembers(bytes)["data"], c).items
        == seq(|bytes|, i requires 0 <= i < |bytes| => ReviveUp(ByteItems(bytes)[i], c));
  }

  /** Parsing what was written, with the reviver alone, already gives the normal form. */
  lemma {:induction false} ReviverGivesNormalForm(t: Tree, c: Coercion)
    ensures ReviveUp(Text(t, true), c) == Normal(t, c)
  {
    match t
    case Buffer(bytes) => BufferSurvives(["data", "type"], bytes, c);
    case Uint8(bytes) => BufferSurvives(["type", "data"], bytes, c);
    case Arr(items) =>
      forall i | 0 <= i < |items| ensures ReviveUp(Text(items[i], true), c) == Normal(items[i], c) {
        ReviverGivesNormalForm(items[i], c);
      }
      assert ReviveUp(Text(t, true), c).items == Normal(t, c).items;
    case Obj(order, members) =>
      forall k | k in members ensures ReviveUp(Text(members[k], true), c) == Normal(members[k], c) {
        ReviverGivesNormalForm(members[k], c);
      }
      var written := map k | k in Defined(members) :: Text(members[k], true);
      var kept := map k | k in Defined(members) :: Normal(members[k], c);
      TextIs(order, members, true, written);
      ReviveUpIs(Sort(Kept(order, kept.Keys)), written, kept, c);
      NormalIs(order, members, kept, c);
    case _ =>
  }

  /** The second, top-down pass finds nothing left to convert. */
  lemma {:induction false} SecondPassIsIdle(j: Json, c: Coercion)
    ensures ReviveDown(ReviveUp(j, c), c) == ReviveUp(j, c)
  {
    match j
    case JArr(items) =>
      forall i | 0 <= i < |items| ensures ReviveDown(ReviveUp(items[i], c), c) == ReviveUp(items[i], c) {
        SecondPassIsIdle(items[i], c);
      }
    case JObj(order, members) =>
      forall k | k in members ensures ReviveDown(ReviveUp(members[k], c), c) == ReviveUp(members[k], c) {
        SecondPassIsIdle(members[k], c);
      }
      var revived := map k | k in members :: ReviveUp(members[k], c);
      ReviveUpIs(order, members, revived, c);
      ReviveDownIs(order, revived, revived, c);
    case _ =>
  }

  /** The round trip: decoding an encoded value gives its normal form. */
  lemma RoundTripIsNormalForm(t: Tree, c: Coercion)
    ensures Encode(t).None? <==> t.Undefined?
    ensures Encode(t).Some? ==> Decode(Encode(t).value, c) == Normal(t, c)
  {
    ReviverGivesNormalForm(t, c);
    SecondPassIsIdle(Text(t, true), c);
  }

  lemma {:induction false} KeptElements(order: seq<string>, keys: set<string>)
    requires NoDuplicates(order)
    ensures NoDuplicates(Kept(order, keys)) && Elements(Kept(order, keys)) == Elements(order) * keys
  {
    if order != [] {
      var x, rest := order[0], Kept(order[1..], keys);
      assert order == [x] + order[1..] && ([x] + rest)[1..] == rest;
      HeadElement(order);
      HeadElement([x] + rest);
      NoDuplicatesCons(x, order[1..]);
      NoDuplicatesCons(x, rest);
      hide Elements;
      hide NoDuplicates;
      KeptElements(order[1..], keys);
      assert Kept(order, keys) == if x in keys then [x] + rest else rest;
    } else {
      assert Kept(order, keys) == [];
    }
  }

  lemma SortedHasNoDuplicates(s: seq<string>)
    requires NoDuplicates(s)
    ensures NoDuplicates(Sort(s)) && Elements(Sort(s)) == Elements(s) && Sort(Sort(s)) == Sort(s)
  {
    SortSorts(s);
    SortForgetsOrder(Sort(s), s);
  }

  lemma {:induction false} KeptAll(order: seq<string>, keys: set<string>)
    requires Elements(order) <= keys
    ensures Kept(order, keys) == order
  {
    if order != [] {
      HeadElement(order);
      KeptAll(order[1..], keys);
    }
  }

  lemma NormalObjectIsFixed(order: seq<string>, kept: map<string, Tree>, c: Coercion)
    requires NoDuplicates(order) && kept.Keys <= Elements(order) && Defined(kept) == kept.Keys
    requires forall k :: k in kept ==> Normal(kept[k], c) == kept[k]
    ensures Normal(NormalObject(order, kept, c), c) == NormalObject(order, kept, c)
  {
    if !BufferShaped(kept) {
      var sorted := Sort(Kept(order, kept.Keys));
      KeptElements(order, kept.Keys);
      SortedHasNoDuplicates(Kept(order, kept.Keys));
      KeptAll(sorted, kept.Keys);
      NormalIs(sorted, kept, kept, c);
    }
  }

  lemma NormalOfObjectIsFixed(order: seq<string>, members: map<string, Tree>, c: Coercion)
    requires NoDuplicates(order) && Elements(order) == members.Keys
    requires forall k :: k in members ==> Normal(Normal(members[k], c), c) == Normal(members[k], c)
    ensures Normal(Normal(Obj(order, members), c), c) == Normal(Obj(order, members), c)
  {
    var kept := map k | k in Defined(members) :: Normal(members[k], c);
    forall k | k in kept ensures !kept[k].Undefined? { NormalIsDefined(members[k], c); }
    NormalIs(order, members, kept, c);
    hide Normal;
    hide BytesOf;
    hide BufferShaped;
    NormalObjectIsFixed(order, kept, c);
  }

  lemma NormalIsDefined(t: Tree, c: Coercion)
    requires !t.Undefined?
    ensures !Normal(t, c).Undefined?
  {
    hide BytesOf;
  }

  /** A stored value is stored as itself. */
  lemma {:induction false} NormalFormIsIdempotent(t: Tree, c: Coercion)
    requires WellFormed(t)
    ensures Normal(Normal(t, c), c) == Normal(t, c)
  {
    hide BytesOf;
    hide Sort;
    hide Kept;
    hide TextToByte;
    hide ToByte;
    match t
    case Arr(items) =>
      forall i | 0 <= i < |items| ensures Normal(Normal(items[i], c), c) == Normal(items[i], c) {
        NormalFormIsIdempotent(items[i], c);
      }
      assert Normal(Normal(t, c), c).items == Normal(t, c).items;
    case Obj(order, members) =>
      forall k | k in members ensures Normal(Normal(members[k], c), c) == Normal(members[k], c) {
        NormalFormIsIdempotent(members[k], c);
      }
      NormalOfObjectIsFixed(order, members, c);
    case _ =>
  }

  /** Storage changes nothing but key order exactly when the value is plain. */
  lemma {:induction false} UnchangedExactlyWhenPlain(t: Tree, c: Coercion)
    ensures SameUpToOrder(Normal(t, c), t) <==> Plain(t)
  {
    match t
    case Arr(items) =>
      forall i | 0 <= i < |items| ensures SameUpToOrder(Normal(items[i], c), items[i]) <==> Plain(items[i]) {
        UnchangedExactlyWhenPlain(items[i], c);
      }
      assert forall i :: 0 <= i < |items| ==> (SameUpToOrder(Normal(t, c).items[i], items[i]) <==> Plain(items[i]));
    case Obj(order, members) =>
      forall k | k in members ensures SameUpToOrder(Normal(members[k], c), members[k]) <==> Plain(members[k]) {
        UnchangedExactlyWhenPlain(members[k], c);
      }
      UnchangedObject(order, members, c);
    case _ =>
  }

  lemma UnchangedObject(order: seq<string>, members: map<string, Tree>, c: Coercion)
    requires forall k :: k in members ==> (SameUpToOrder(Normal(members[k], c), members[k]) <==> Plain(members[k]))
    ensures SameUpToOrder(Normal(Obj(order, members), c), Obj(order, members)) <==> Plain(Obj(order, members))
  {
    if forall k :: k in members ==> Plain(members[k]) {
      PlainMembersUnchanged(order, members, c);
    } else {
      var k :| k in members && !Plain(members[k]);
      MemberChanged(order, members, k, c);
    }
  }

  lemma PlainMembersUnchanged(order: seq<string>, members: map<string, Tree>, c: Coercion)
    requires forall k :: k in members ==> SameUpToOrder(Normal(members[k], c), members[k]) && Plain(members[k])
    ensures SameUpToOrder(Normal(Obj(order, members), c), Obj(order, members)) <==> !BufferShaped(members)
  {
    var kept := map k | k in Defined(members) :: Normal(members[k], c);
    assert kept.Keys == members.Keys by {
      assert forall k :: k in members ==> Plain(members[k]) && !members[k].Undefined?;
    }
    NormalIs(order, members, kept, c);
    hide Normal;
    hide BytesOf;
    hide Plain;
    hide Sort;
    hide Kept;
    ShapeOfUnchanged(members, kept, c);
    hide BufferShaped;
  }

  lemma MemberChanged(order: seq<string>, members: map<string, Tree>, k: string, c: Coercion)
    requires k in members && !SameUpToOrder(Normal(members[k], c), members[k])
    ensures !SameUpToOrder(Normal(Obj(order, members), c), Obj(order, members))
  {
    var kept := map x | x in Defined(members) :: Normal(members[x], c);
    NormalIs(order, members, kept, c);
    hide Normal;
    hide BytesOf;
    hide BufferShaped;
    hide Sort;
    hide Kept;
    assert k in Defined(members) ==> !SameUpToOrder(kept[k], members[k]);
  }

  lemma ShapeOfUnchanged(members: map<string, Tree>, kept: map<string, Tree>, c: Coercion)
    requires kept.Keys == members.Keys && forall k :: k in members ==> SameUpToOrder(kept[k], members[k])
    ensures BufferShaped(kept) <==> BufferShaped(members)
  {
    if "type" in members && "data" in members {
      assert SameUpToOrder(kept["type"], members["type"]) && SameUpToOrder(kept["data"], members["data"]);
    }
  }

  /** The encoding is canonical: values equal up to key order are encoded identically. */
  lemma {:induction false} EncodingIsCanonical(a: Tree, b: Tree)
    requires WellFormed(a) && WellFormed(b) && SameUpToOrder(a, b)
    ensures Encode(a) == Encode(b) && Text(a, true) == Text(b, true)
  {
    match a
    case Arr(items) =>
      forall i | 0 <= i < |items| ensures Text(items[i], true) == Text(b.items[i], true) {
        EncodingIsCanonical(items[i], b.items[i]);
      }
      assert Text(a, true).items == Text(b, true).items;
    case Obj(order, members) =>
      forall k | k in members ensures Text(members[k], true) == Text(b.members[k], true) {
        EncodingIsCanonical(members[k], b.members[k]);
      }
      forall k | k in members ensures members[k].Undefined? <==> b.members[k].Undefined? {
        assert SameUpToOrder(members[k], b.members[k]);
      }
      var keys := Defined(members);
      assert keys == Defined(b.members);
      var written := map k | k in keys :: Text(members[k], true);
      TextIs(order, members, true, written);
      TextIs(b.order, b.members, true, written);
      KeptElements(order, keys);
      KeptElements(b.order, keys);
      SortForgetsOrder(Kept(order, keys), Kept(b.order, keys));
    case _ =>
  }

  // ----- assertBufferTypes -----

  /** assertBufferTypes does not throw. */
  predicate PassesBufferCheck(t: Tree) {
    match t
    case Arr(items) => forall i :: 0 <= i < |items| ==> PassesBufferCheck(items[i])
    case Obj(order, members) => !Tagged(members) && forall k :: k in members ==> PassesBufferCheck(members[k])
    case _ => true
  }

  /** Wherever an object is tagged as a Buffer, it carries an array. */
  predicate TagsCarryArrays(j: Json) {
    match j
    case JArr(items) => forall i :: 0 <= i < |items| ==> TagsCarryArrays(items[i])
    case JObj(order, members) =>
      if "type" in members && members["type"] == JStr("Buffer") && "data" in members then members["data"].JArr?
      else forall k :: k in members ==> TagsCarryArrays(members[k])
    case _ => true
  }

  lemma RevivedPasses(order: seq<string>, members: map<string, Json>, revived: map<string, Tree>, c: Coercion)
    requires revived.Keys == members.Keys && forall k :: k in members ==> revived[k] == ReviveUp(members[k], c)
    requires forall k :: k in members ==> (PassesBufferCheck(revived[k]) <==> TagsCarryArrays(members[k]))
    ensures PassesBufferCheck(Reviver(order, revived, c)) <==> TagsCarryArrays(JObj(order, members))
  {
    if "type" in members { LeavesAreRecognised(members["type"], c); }
    if "data" in members { LeavesAreRecognised(members["data"], c); }
  }

  lemma {:induction false} RevivedValuesAreRewritable(j: Json, c: Coercion)
    ensures PassesBufferCheck(ReviveUp(j, c)) <==> TagsCarryArrays(j)
  {
    match j
    case JArr(items) =>
      forall i | 0 <= i < |items| ensures PassesBufferCheck(ReviveUp(items[i], c)) <==> TagsCarryArrays(items[i]) {
        RevivedValuesAreRewritable(items[i], c);
      }
      assert forall i :: 0 <= i < |items| ==> ReviveUp(j, c).items[i] == ReviveUp(items[i], c);
    case JObj(order, members) =>
      var revived := map k | k in members :: ReviveUp(members[k], c);
      forall k | k in members ensures PassesBufferCheck(revived[k]) <==> TagsCarryArrays(members[k]) {
        RevivedValuesAreRewritable(members[k], c);
      }
      ReviveUpIs(order, members, revived, c);
      RevivedPasses(order, members, revived, c);
    case _ =>
  }

  /** A decoded value may be written again exactly when every Buffer tag carried an array. */
  lemma DecodedValuesAreRewritable(j: Json, c: Coercion)
    ensures PassesBufferCheck(Decode(j, c)) <==> TagsCarryArrays(j)
  {
    SecondPassIsIdle(j, c);
    RevivedValuesAreRewritable(j, c);
  }

  // ----- the two revival passes, and the outbox hop -----

  predicate JsonBufferShaped(members: map<string, Json>) {
    "type" in members && members["type"] == JStr("Buffer") && "data" in members && members["data"].JArr?
  }

  lemma LeavesAreRecognised(j: Json, c: Coercion)
    ensures Parse(j) == Str("Buffer") <==> j == JStr("Buffer")
    ensures ReviveUp(j, c) == Str("Buffer") <==> j == JStr("Buffer")
    ensures Parse(j).Arr? <==> j.JArr?
    ensures ReviveUp(j, c).Arr? <==> j.JArr?
  {
  }

  /** Neither revival changes which objects look like Buffers. */
  lemma ShapeIsStable(members: map<string, Json>, parsed: map<string, Tree>, revived: map<string, Tree>, c: Coercion)
    requires parsed.Keys == members.Keys == revived.Keys
    requires forall k :: k in members ==> parsed[k] == Parse(members[k]) && revived[k] == ReviveUp(members[k], c)
    ensures BufferShaped(parsed) <==> JsonBufferShaped(members)
    ensures BufferShaped(revived) <==> JsonBufferShaped(members)
  {
    if "type" in members && "data" in members {
      LeavesAreRecognised(members["type"], c);
      LeavesAreRecognised(members["data"], c);
    }
  }

  /** An item that is a byte other than 0 only once the Buffer inside it is revived: a Buffer-shaped object
      whose bytes spell a numeral, alone or alone in an array. */
  predicate HidesNumber(j: Json, c: Coercion) {
    match j
    case JObj(order, members) => JsonBufferShaped(members) && TextToByte(ReviveUp(j, c), c) != 0
    case JArr(items) => |items| == 1 && HidesNumber(items[0], c)
    case _ => false
  }

  /** No Buffer-shaped object has such an item. */
  predicate NothingHidden(j: Json, c: Coercion) {
    match j
    case JArr(items) => forall i :: 0 <= i < |items| ==> NothingHidden(items[i], c)
    case JObj(order, members) =>
      if JsonBufferShaped(members) then forall item :: item in members["data"].items ==> !HidesNumber(item, c)
      else forall k :: k in members ==> NothingHidden(members[k], c)
    case _ => true
  }

  lemma ObjectsAreRevivedByShape(order: seq<string>, members: map<string, Json>, c: Coercion)
    ensures var up := ReviveUp(JObj(order, members), c);
            if JsonBufferShaped(members) then up.Buffer? else up.Obj?
  {
    var revived := map k | k in members :: ReviveUp(members[k], c);
    ReviveUpIs(order, members, revived, c);
    ShapeIsStable(members, map k | k in members :: Parse(members[k]), revived, c);
    hide BytesOf;
    hide ReviveUp;
    hide Parse;
  }

  lemma {:induction false} TextsAreBytesAlike(j: Json, c: Coercion)
    ensures TextToByte(Parse(j), c) == TextToByte(ReviveUp(j, c), c) <==> !HidesNumber(j, c)
  {
    match j
    case JArr(items) =>
      if |items| == 1 { TextsAreBytesAlike(items[0], c); }
    case JObj(order, members) =>
      ObjectsAreRevivedByShape(order, members, c);
      hide ReviveUp;
      hide JsonBufferShaped;
    case _ =>
  }

  lemma ItemsAreBytesAlike(j: Json, c: Coercion)
    ensures ToByte(Parse(j), c) == ToByte(ReviveUp(j, c), c) <==> !HidesNumber(j, c)
  {
    TextsAreBytesAlike(j, c);
    if j.JArr? && |j.items| == 1 { TextsAreBytesAlike(j.items[0], c); }
  }

  lemma BytesAreRevivedAlike(items: seq<Json>, c: Coercion)
    ensures BytesOf(Parse(JArr(items)).items, c) == BytesOf(ReviveUp(JArr(items), c).items, c)
       <==> forall item :: item in items ==> !HidesNumber(item, c)
  {
    var a, b := BytesOf(Parse(JArr(items)).items, c), BytesOf(ReviveUp(JArr(items), c).items, c);
    forall i | 0 <= i < |items| ensures a[i] == b[i] <==> !HidesNumber(items[i], c) {
      ItemsAreBytesAlike(items[i], c);
    }
    hide ToByte;
    hide TextToByte;
    hide HidesNumber;
    if forall item :: item in items ==> !HidesNumber(item, c) {
      assert forall i :: 0 <= i < |items| ==> items[i] in items && a[i] == b[i];
      assert a == b;
    } else {
      var item :| item in items && HidesNumber(item, c);
      var i :| 0 <= i < |items| && items[i] == item;
      assert a[i] != b[i];
    }
  }

  lemma PlainRevivalsAgree(order: seq<string>, parsed: map<string, Tree>, revived: map<string, Tree>, c: Coercion)
    requires parsed.Keys == revived.Keys && !BufferShaped(parsed)
    ensures ReviveDown(Obj(order, parsed), c) == Obj(order, revived)
       <==> forall k :: k in parsed ==> ReviveDown(parsed[k], c) == revived[k]
  {
    var down := map k | k in parsed :: ReviveDown(parsed[k], c);
    ReviveDownIs(order, parsed, down, c);
    hide ReviveDown;
    assert down.Keys == revived.Keys;
  }

  lemma ShapedRevivalsAgree(order: seq<string>, members: map<string, Json>, parsed: map<string, Tree>,
                            revived: map<string, Tree>, c: Coercion)
    requires JsonBufferShaped(members) && BufferShaped(parsed) && BufferShaped(revived)
    requires parsed["data"] == Parse(members["data"]) && revived["data"] == ReviveUp(members["data"], c)
    ensures ReviveDown(Obj(order, parsed), c) == Reviver(order, revived, c) <==> NothingHidden(JObj(order, members), c)
  {
    BytesAreRevivedAlike(members["data"].items, c);
    hide BytesOf;
    hide HidesNumber;
    hide Parse;
    hide ReviveUp;
  }

  lemma ObjectRevivalsAgree(order: seq<string>, members: map<string, Json>, parsed: map<string, Tree>,
                            revived: map<string, Tree>, c: Coercion)
    requires parsed.Keys == members.Keys == revived.Keys
    requires forall k :: k in members ==> parsed[k] == Parse(members[k]) && revived[k] == ReviveUp(members[k], c)
    requires forall k :: k in members ==> (ReviveDown(parsed[k], c) == revived[k] <==> NothingHidden(members[k], c))
    ensures ReviveDown(Obj(order, parsed), c) == Reviver(order, revived, c) <==> NothingHidden(JObj(order, members), c)
  {
    ShapeIsStable(members, parsed, revived, c);
    if JsonBufferShaped(members) {
      ShapedRevivalsAgree(order, members, parsed, revived, c);
    } else {
      PlainRevivalsAgree(order, parsed, revived, c);
    }
    hide BytesOf;
    hide HidesNumber;
    hide ReviveDown;
    hide ReviveUp;
    hide Parse;
  }

  /** Reviving top-down what was parsed plainly agrees with reviving bottom-up while parsing exactly when no
      Buffer-shaped object hides a number in a nested one. */
  lemma {:induction false} TopDownAgreesExactlyWhenNothingHidden(j: Json, c: Coercion)
    ensures ReviveDown(Parse(j), c) == ReviveUp(j, c) <==> NothingHidden(j, c)
  {
    match j
    case JArr(items) =>
      var down, up := ReviveDown(Parse(j), c).items, ReviveUp(j, c).items;
      forall i | 0 <= i < |items| ensures down[i] == up[i] <==> NothingHidden(items[i], c) {
        TopDownAgreesExactlyWhenNothingHidden(items[i], c);
      }
      assert down == up <==> forall i :: 0 <= i < |items| ==> down[i] == up[i];
    case JObj(order, members) =>
      forall k | k in members
        ensures ReviveDown(Parse(members[k]), c) == ReviveUp(members[k], c) <==> NothingHidden(members[k], c)
      {
        TopDownAgreesExactlyWhenNothingHidden(members[k], c);
      }
      var parsed := map k | k in members :: Parse(members[k]);
      var revived := map k | k in members :: ReviveUp(members[k], c);
      ObjectRevivalsAgree(order, members, parsed, revived, c);
    case _ =>
  }

  /** Byte arrays are real Buffers. */
  predicate RealBuffers(t: Tree) {
    match t
    case Uint8(_) => false
    case Arr(items) => forall i :: 0 <= i < |items| ==> RealBuffers(items[i])
    case Obj(order, members) => forall k :: k in members ==> RealBuffers(members[k])
    case _ => true
  }

  /** A value after the outbox stored it with plain JSON. */
  function Hop(t: Tree): Tree {
    Parse(Text(t, false))
  }

  lemma HopIsDefined(t: Tree)
    ensures !Hop(t).Undefined?
  {
  }

  lemma HopOfObjectIs(order: seq<string>, members: map<string, Tree>, hopped: map<string, Tree>)
    requires hopped.Keys == Defined(members) && forall k :: k in hopped ==> hopped[k] == Hop(members[k])
    ensures Hop(Obj(order, members)) == Obj(Kept(order, Defined(members)), hopped)
  {
    assert Hop(Obj(order, members)).members == hopped;
  }

  lemma NormalForgetsTheHop(order: seq<string>, members: map<string, Tree>, hopped: map<string, Tree>, c: Coercion)
    requires NoDuplicates(order) && Elements(order) == members.Keys
    requires hopped.Keys == Defined(members) == Defined(hopped)
    requires forall k :: k in hopped ==> Normal(hopped[k], c) == Normal(members[k], c)
    ensures Normal(Obj(Kept(order, Defined(members)), hopped), c) == Normal(Obj(order, members), c)
  {
    var keys := Defined(members);
    var kept := map k | k in keys :: Normal(members[k], c);
    NormalIs(order, members, kept, c);
    NormalIs(Kept(order, keys), hopped, kept, c);
    KeptElements(order, keys);
    KeptAll(Kept(order, keys), keys);
  }

  lemma HopOfObject(order: seq<string>, members: map<string, Tree>, c: Coercion)
    requires NoDuplicates(order) && Elements(order) == members.Keys
    requires forall k :: k in members ==> Normal(Hop(members[k]), c) == Normal(members[k], c)
    ensures Normal(Hop(Obj(order, members)), c) == Normal(Obj(order, members), c)
  {
    var hopped := map k | k in Defined(members) :: Hop(members[k]);
    HopOfObjectIs(order, members, hopped);
    forall k | k in hopped ensures !hopped[k].Undefined? { HopIsDefined(members[k]); }
    NormalForgetsTheHop(order, members, hopped, c);
  }

  lemma HopOfBuffer(bytes: seq<Byte>, c: Coercion)
    ensures Normal(Hop(Buffer(bytes)), c) == Buffer(bytes)
  {
    hide TextToByte;
    ByteRoundTrip(bytes, c);
    var items := seq(|bytes|, i requires 0 <= i < |bytes| => Parse(ByteItems(bytes)[i]));
    var hopped := Hop(Buffer(bytes)).members;
    assert hopped["type"] == Parse(JStr("Buffer")) == Str("Buffer");
    assert hopped["data"] == Parse(JArr(ByteItems(bytes))) == Arr(items);
    assert Normal(Arr(items), c).items == items;
    var kept := map k | k in Defined(hopped) :: Normal(hopped[k], c);
    assert kept["data"] == Arr(items) && kept["type"] == Str("Buffer");
  }

  /** The value with an object without keys in place of every byte array that is no Buffer. */
  function Blanked(t: Tree): Tree {
    match t
    case Uint8(_) => Obj([], map[])
    case Arr(items) => Arr(seq(|items|, i requires 0 <= i < |items| => Blanked(items[i])))
    case Obj(order, members) => Obj(order, map k | k in members :: Blanked(members[k]))
    case _ => t
  }

  /** As an item of a Buffer-shaped object it counts as the same byte whatever its byte arrays spell. */
  predicate BytesUnread(item: Tree, c: Coercion) {
    ToByte(Normal(Blanked(item), c), c) == ToByte(Normal(item, c), c)
  }

  /** Every byte array is a real Buffer or stands in a Buffer-shaped object in which nothing reads it. */
  predicate NoByteArrayShows(t: Tree, c: Coercion) {
    match t
    case Uint8(_) => false
    case Arr(items) => forall i :: 0 <= i < |items| ==> NoByteArrayShows(items[i], c)
    case Obj(order, members) =>
      if BufferShaped(members) then forall item :: item in members["data"].items ==> BytesUnread(item, c)
      else forall k :: k in members ==> NoByteArrayShows(members[k], c)
    case _ => true
  }

  lemma {:induction false} DecimalDenotes(n: nat)
    ensures Canonical(Decimal(n)) && ValueOf(Decimal(n)) == n && (n > 0 ==> Decimal(n)[0] != '0')
  {
    var d := "0123456789"[n % 10];
    assert '0' <= d <= '9' && d as int - '0' as int == n % 10;
    if n < 10 {
      LastDigit("", d);
    } else {
      DecimalDenotes(n / 10);
      LastDigit(Decimal(n / 10), d);
    }
  }

  lemma {:induction false} IndexMembersAre(bytes: seq<Byte>)
    ensures forall k ::
              (k in IndexMembers(bytes) <==> Canonical(k) && ValueOf(k) < |bytes|)
              && (k in IndexMembers(bytes) ==> IndexMembers(bytes)[k] == JNum(bytes[ValueOf(k)] as real))
  {
    var n := |bytes|;
    if n > 0 {
      IndexMembersAre(bytes[..n - 1]);
      DecimalDenotes(n - 1);
      hide Decimal;
      forall k | Canonical(k) && ValueOf(k) == n - 1 ensures k == Decimal(n - 1) {
        DecimalsAreUnique(k, Decimal(n - 1));
      }
      hide ValueOf;
      hide Canonical;
    }
  }

  /** What plain JSON makes of a byte array that is no Buffer: an object that lists each byte under its index. */
  lemma HopIndexesByteArrays(bytes: seq<Byte>)
    ensures Hop(Uint8(bytes)).Obj?
    ensures forall k ::
              (k in Hop(Uint8(bytes)).members <==> Canonical(k) && ValueOf(k) < |bytes|)
              && (k in Hop(Uint8(bytes)).members ==>
                    Hop(Uint8(bytes)).members[k] == Num(bytes[ValueOf(k)] as real))
  {
    IndexMembersAre(bytes);
    var written := IndexMembers(bytes);
    assert Hop(Uint8(bytes)).members == map k | k in written :: Parse(written[k]);
    hide ValueOf;
    hide Canonical;
    hide IndexMembers;
    hide Hop;
  }

  lemma DecimalIsNoTag(n: nat)
    ensures Decimal(n) != "type"
  {
    var last := Decimal(n)[|Decimal(n)| - 1];
    assert last == "0123456789"[n % 10];
    assert last != 'e';
  }

  lemma {:induction false} IndexMembersAreUntagged(bytes: seq<Byte>)
    ensures "type" !in IndexMembers(bytes)
  {
    var n := |bytes|;
    if n > 0 {
      IndexMembersAreUntagged(bytes[..n - 1]);
      DecimalIsNoTag(n - 1);
    }
  }

  lemma HopOfUint8Shows(bytes: seq<Byte>, c: Coercion)
    ensures Normal(Hop(Uint8(bytes)), c).Obj?
  {
    IndexMembersAreUntagged(bytes);
    var hopped := Hop(Uint8(bytes)).members;
    var kept := map k | k in Defined(hopped) :: Normal(hopped[k], c);
    assert "type" !in kept;
  }

  lemma LeavesStayLeaves(t: Tree, c: Coercion)
    ensures t != Date("Buffer") ==> (Normal(t, c) == Str("Buffer") <==> t == Str("Buffer"))
    ensures Normal(t, c).Arr? <==> t.Arr?
  {
    hide BytesOf;
  }

  /** Storing turns exactly the Buffer-shaped objects into Buffers. */
  lemma NormalByShape(order: seq<string>, members: map<string, Tree>, c: Coercion)
    requires "type" in members ==> members["type"] != Date("Buffer")
    ensures var n := Normal(Obj(order, members), c);
            if BufferShaped(members) then n == Buffer(BytesOf(Normal(members["data"], c).items, c))
            else n.Obj? && n.members.Keys == Defined(members)
                 && forall k :: k in n.members ==> n.members[k] == Normal(members[k], c)
  {
    var kept := map k | k in Defined(members) :: Normal(members[k], c);
    NormalIs(order, members, kept, c);
    if "type" in members { LeavesStayLeaves(members["type"], c); }
    if "data" in members { LeavesStayLeaves(members["data"], c); }
    hide Normal;
    hide BytesOf;
  }

  /** A value stored inside another one and read again; JSON writes undefined as null there. */
  function ReadBack(t: Tree, c: Coercion): Tree {
    if t.Undefined? then NullValue else Decode(Encode(t).value, c)
  }

  lemma ReadBackIsNormal(t: Tree, c: Coercion)
    ensures ReadBack(t, c) == Normal(t, c)
  {
    RoundTripIsNormalForm(t, c);
  }

  /** What a stored value reads back as, part by part: leaves as JSON and the replacer have them, arrays item by item,
      objects member by member without the undefined ones, and an object shaped like a Buffer as one. */
  lemma StoredPartsReadBack(t: Tree, c: Coercion)
    requires t.Obj? && "type" in t.members ==> t.members["type"] != Date("Buffer")
    ensures var read := ReadBack(t, c);
            match t
            case Undefined => read == NullValue
            case NotFinite => read == NullValue
            case Date(iso) => read == Str(iso)
            case Uint8(bytes) => read == Buffer(bytes)
            case Arr(items) =>
              && read.Arr? && |read.items| == |items|
              && forall i :: 0 <= i < |items| ==> read.items[i] == ReadBack(items[i], c)
            case Obj(_, members) =>
              if BufferShaped(members) then
                ReadBack(members["data"], c).Arr? && read == Buffer(BytesOf(ReadBack(members["data"], c).items, c))
              else
                && read.Obj? && (forall k :: k in read.members <==> k in members && members[k] != Undefined)
                && forall k :: k in read.members ==> read.members[k] == ReadBack(members[k], c)
            case _ => read == t
  {
    ReadBackIsNormal(t, c);
    hide ReadBack;
    hide BytesOf;
    match t
    case Arr(items) =>
      forall i | 0 <= i < |items| ensures ReadBack(items[i], c) == Normal(items[i], c) {
        ReadBackIsNormal(items[i], c);
      }
    case Obj(order, members) =>
      forall k | k in members ensures ReadBack(members[k], c) == Normal(members[k], c) {
        ReadBackIsNormal(members[k], c);
      }
      NormalByShape(order, members, c);
    case _ =>
  }

  lemma HopKeepsLeaves(t: Tree)
    ensures t != Date("Buffer") ==> (Hop(t) == Str("Buffer") <==> t == Str("Buffer"))
    ensures (Hop(t).Arr? <==> t.Arr?) && !Hop(t).Date?
  {
  }

  lemma HopKeepsShape(members: map<string, Tree>, hopped: map<string, Tree>)
    requires "type" in members ==> members["type"] != Date("Buffer")
    requires hopped.Keys == Defined(members) && forall k :: k in hopped ==> hopped[k] == Hop(members[k])
    ensures BufferShaped(hopped) <==> BufferShaped(members)
    ensures Defined(hopped) == hopped.Keys && ("type" in hopped ==> hopped["type"] != Date("Buffer"))
  {
    forall k | k in hopped ensures !hopped[k].Undefined? { HopIsDefined(members[k]); }
    if "type" in hopped { HopKeepsLeaves(members["type"]); }
    if "data" in hopped { HopKeepsLeaves(members["data"]); }
    hide Hop;
  }

  /** So it does after the hop, ... */
  lemma HopByShape(order: seq<string>, members: map<string, Tree>, c: Coercion)
    requires "type" in members ==> members["type"] != Date("Buffer")
    ensures var n := Normal(Hop(Obj(order, members)), c);
            if BufferShaped(members) then n == Buffer(BytesOf(Normal(Hop(members["data"]), c).items, c))
            else n.Obj? && n.members.Keys == Defined(members)
                 && forall k :: k in n.members ==> n.members[k] == Normal(Hop(members[k]), c)
  {
    var hopped := map k | k in Defined(members) :: Hop(members[k]);
    HopOfObjectIs(order, members, hopped);
    HopKeepsShape(members, hopped);
    NormalByShape(Kept(order, Defined(members)), hopped, c);
    hide Normal;
    hide Hop;
    hide BytesOf;
    hide Kept;
  }

  /** ... and without byte arrays. */
  lemma BlankedByShape(order: seq<string>, members: map<string, Tree>, c: Coercion)
    requires "type" in members ==> members["type"] != Date("Buffer")
    ensures var n := Normal(Blanked(Obj(order, members)), c);
            if BufferShaped(members) then n == Buffer(BytesOf(Normal(Blanked(members["data"]), c).items, c))
            else n.Obj?
  {
    var blanked := map k | k in members :: Blanked(members[k]);
    assert Blanked(Obj(order, members)) == Obj(order, blanked);
    NormalByShape(order, blanked, c);
    hide Normal;
    hide BytesOf;
  }

  /** An item counts as the same byte after the hop as with its byte arrays blanked, directly and as text. */
  predicate HopBlanks(t: Tree, c: Coercion) {
    && TextToByte(Normal(Hop(t), c), c) == TextToByte(Normal(Blanked(t), c), c)
    && ToByte(Normal(Hop(t), c), c) == ToByte(Normal(Blanked(t), c), c)
  }

  lemma HopBlanksArray(items: seq<Tree>, c: Coercion)
    requires forall i :: 0 <= i < |items| ==> HopBlanks(items[i], c)
    ensures HopBlanks(Arr(items), c)
  {
    if |items| == 1 { assert HopBlanks(items[0], c); }
  }

  lemma HopBlanksUint8(bytes: seq<Byte>, c: Coercion)
    ensures HopBlanks(Uint8(bytes), c)
  {
    HopOfUint8Shows(bytes, c);
    NormalByShape([], map[], c);
    hide Hop;
  }

  lemma HopBlanksItems(items: seq<Tree>, c: Coercion)
    requires forall item :: item in items ==> HopBlanks(item, c)
    ensures BytesOf(Normal(Hop(Arr(items)), c).items, c) == BytesOf(Normal(Blanked(Arr(items)), c).items, c)
  {
    hide ToByte;
    hide TextToByte;
    forall i | 0 <= i < |items| ensures HopBlanks(items[i], c) {
      assert items[i] in items;
    }
  }

  lemma HopBlanksObject(order: seq<string>, members: map<string, Tree>, c: Coercion)
    requires "type" in members ==> members["type"] != Date("Buffer")
    requires BufferShaped(members) ==> forall item :: item in members["data"].items ==> HopBlanks(item, c)
    ensures HopBlanks(Obj(order, members), c)
  {
    HopByShape(order, members, c);
    BlankedByShape(order, members, c);
    if BufferShaped(members) {
      HopBlanksItems(members["data"].items, c);
    }
    hide Normal;
    hide Hop;
    hide Blanked;
    hide BytesOf;
  }

  /** Inside a Buffer-shaped object the hop does to an item what blanking its byte arrays does. */
  lemma {:induction false} HopBlanksBytes(t: Tree, c: Coercion)
    requires WellFormed(t)
    ensures HopBlanks(t, c)
  {
    match t
    case Uint8(bytes) => HopBlanksUint8(bytes, c);
    case Buffer(bytes) => HopOfBuffer(bytes, c);
    case Arr(items) =>
      forall i | 0 <= i < |items| ensures HopBlanks(items[i], c) { HopBlanksBytes(items[i], c); }
      HopBlanksArray(items, c);
    case Obj(order, members) =>
      if BufferShaped(members) {
        forall item | item in members["data"].items ensures HopBlanks(item, c) { HopBlanksBytes(item, c); }
      }
      HopBlanksObject(order, members, c);
    case _ =>
  }

  lemma HopOfShapedShows(items: seq<Tree>, c: Coercion)
    requires forall i :: 0 <= i < |items| ==> WellFormed(items[i])
    ensures BytesOf(Normal(Hop(Arr(items)), c).items, c) == BytesOf(Normal(Arr(items), c).items, c)
       <==> forall item :: item in items ==> BytesUnread(item, c)
  {
    var a, b := BytesOf(Normal(Hop(Arr(items)), c).items, c), BytesOf(Normal(Arr(items), c).items, c);
    forall i | 0 <= i < |items| ensures a[i] == b[i] <==> BytesUnread(items[i], c) {
      HopBlanksBytes(items[i], c);
    }
    hide BytesUnread;
    hide ToByte;
    if forall item :: item in items ==> BytesUnread(item, c) {
      assert a == b;
    } else {
      var item :| item in items && !BytesUnread(item, c);
      var i :| 0 <= i < |items| && items[i] == item;
      assert a[i] != b[i];
    }
  }

  lemma HopOfUnshapedShows(order: seq<string>, members: map<string, Tree>, k: string, c: Coercion)
    requires WellFormed(Obj(order, members)) && !BufferShaped(members)
    requires k in members && Normal(Hop(members[k]), c) != Normal(members[k], c)
    ensures Normal(Hop(Obj(order, members)), c) != Normal(Obj(order, members), c)
  {
    assert k in Defined(members);
    HopByShape(order, members, c);
    NormalByShape(order, members, c);
    hide Normal;
    hide Hop;
  }

  lemma HopKeepsObjectExactly(order: seq<string>, members: map<string, Tree>, c: Coercion)
    requires WellFormed(Obj(order, members))
    requires forall k :: k in members ==>
      (Normal(Hop(members[k]), c) == Normal(members[k], c) <==> NoByteArrayShows(members[k], c))
    ensures Normal(Hop(Obj(order, members)), c) == Normal(Obj(order, members), c)
       <==> NoByteArrayShows(Obj(order, members), c)
  {
    hide Normal;
    hide Hop;
    hide BytesOf;
    hide BytesUnread;
    if BufferShaped(members) {
      HopByShape(order, members, c);
      NormalByShape(order, members, c);
      HopOfShapedShows(members["data"].items, c);
    } else if forall k :: k in members ==> NoByteArrayShows(members[k], c) {
      HopOfObject(order, members, c);
    } else {
      var k :| k in members && !NoByteArrayShows(members[k], c);
      HopOfUnshapedShows(order, members, k, c);
    }
  }

  /** The hop keeps the normal form exactly when no byte array shows. */
  lemma {:induction false} HopKeepsNormalFormExactly(t: Tree, c: Coercion)
    requires WellFormed(t)
    ensures Normal(Hop(t), c) == Normal(t, c) <==> NoByteArrayShows(t, c)
  {
    hide BytesOf;
    hide BytesUnread;
    match t
    case Uint8(bytes) => HopOfUint8Shows(bytes, c);
    case Buffer(bytes) => HopOfBuffer(bytes, c);
    case Arr(items) =>
      var a, b := Normal(Hop(t), c).items, Normal(t, c).items;
      forall i | 0 <= i < |items| ensures a[i] == b[i] <==> NoByteArrayShows(items[i], c) {
        HopKeepsNormalFormExactly(items[i], c);
      }
      assert a == b <==> forall i :: 0 <= i < |items| ==> a[i] == b[i];
    case Obj(order, members) =>
      forall k | k in members
        ensures Normal(Hop(members[k]), c) == Normal(members[k], c) <==> NoByteArrayShows(members[k], c)
      {
        HopKeepsNormalFormExactly(members[k], c);
      }
      HopKeepsObjectExactly(order, members, c);
    case _ =>
  }

  /** Sending a patch through the outbox before it is encoded changes nothing that is read back, if and only if no
      byte array in it shows. */
  lemma HopIsInvisibleExactlyWhenNoByteArrayShows(t: Tree, c: Coercion)
    requires WellFormed(t) && !t.Undefined?
    ensures Encode(Hop(t)).Some?
    ensures Decode(Encode(Hop(t)).value, c) == Decode(Encode(t).value, c) <==> NoByteArrayShows(t, c)
  {
    HopIsDefined(t);
    RoundTripIsNormalForm(t, c);
    RoundTripIsNormalForm(Hop(t), c);
    HopKeepsNormalFormExactly(t, c);
  }

  lemma {:induction false} BlankingRealBuffersDoesNothing(t: Tree)
    requires RealBuffers(t)
    ensures Blanked(t) == t
  {
    match t
    case Arr(items) =>
      forall i | 0 <= i < |items| ensures Blanked(items[i]) == items[i] {
        BlankingRealBuffersDoesNothing(items[i]);
      }
      assert Blanked(t).items == items;
    case Obj(order, members) =>
      forall k | k in members ensures Blanked(members[k]) == members[k] {
        BlankingRealBuffersDoesNothing(members[k]);
      }
      assert Blanked(t).members == members;
    case _ =>
  }

  lemma {:induction false} RealBuffersDoNotShow(t: Tree, c: Coercion)
    requires RealBuffers(t)
    ensures NoByteArrayShows(t, c)
  {
    match t
    case Arr(items) =>
      forall i | 0 <= i < |items| ensures NoByteArrayShows(items[i], c) { RealBuffersDoNotShow(items[i], c); }
    case Obj(order, members) =>
      if BufferShaped(members) {
        assert RealBuffers(members["data"]);
        forall item | item in members["data"].items ensures BytesUnread(item, c) {
          BlankingRealBuffersDoesNothing(item);
        }
      } else {
        forall k | k in members ensures NoByteArrayShows(members[k], c) { RealBuffersDoNotShow(members[k], c); }
      }
    case _ =>
  }

  /** In particular it changes nothing when every byte array is a real Buffer. */
  lemma OutboxHopIsInvisible(t: Tree, c: Coercion)
    requires WellFormed(t) && RealBuffers(t) && !t.Undefined?
    ensures Encode(Hop(t)).Some? && Decode(Encode(Hop(t)).value, c) == Decode(Encode(t).value, c)
  {
    RealBuffersDoNotShow(t, c);
    HopIsInvisibleExactlyWhenNoByteArrayShows(t, c);
  }
}
