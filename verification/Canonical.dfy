/**
 internal/application/notification/canonical.go over JSON trees.

 A document is what the decoder reads; a value is the `any` it builds (numbers kept as literals, objects as
 maps); the canonical form is what json.Marshal writes for that value, as a sequence of tokens. How a token is
 spelled in bytes (escapes, UTF-8) belongs to the library.
 */
module Canonical {
  import opened Wrappers

  datatype Json =
    | JNull
    | JBool(b: bool)
    | JNumber(literal: string)
    | JString(s: string)
    | JArray(items: seq<Json>)
    | JObject(members: seq<Member>)

  datatype Member = Member(key: string, value: Json)

  datatype Value =
    | Null
    | Bool(b: bool)
    | Number(literal: string)
    | String(s: string)
    | Array(items: seq<Value>)
    | Object(fields: map<string, Value>)

  /** decoder.Decode with UseNumber: later members overwrite earlier ones with the same key. */
  function Decode(j: Json): Value
    decreases j, 1
  {
    match j
    case JNull => Null
    case JBool(b) => Bool(b)
    case JNumber(literal) => Number(literal)
    case JString(s) => String(s)
    case JArray(items) => Array(DecodeItems(items))
    case JObject(members) => Object(DecodeMembers(members))
  }

  function DecodeItems(items: seq<Json>): seq<Value>
    decreases items, 0
  {
    if items == [] then [] else [Decode(items[0])] + DecodeItems(items[1..])
  }

  function DecodeMembers(members: seq<Member>): map<string, Value>
    decreases members, 0
  {
    if members == [] then map[]
    else
      var last := members[|members| - 1];
      DecodeMembers(members[..|members| - 1])[last.key := Decode(last.value)]
  }

  /** The bytewise order json.Marshal sorts keys by. */
  predicate KeyLeq(a: string, b: string) {
    a == [] || (b != [] && (a[0] < b[0] || (a[0] == b[0] && KeyLeq(a[1..], b[1..]))))
  }

  /** One key is before another if it is a prefix of it, or smaller at the first byte in which they differ. */
  lemma {:induction false} KeyLeqMeans(a: string, b: string)
    ensures KeyLeq(a, b) <==>
            exists i :: && 0 <= i <= |a| && i <= |b| && a[..i] == b[..i]
                        && (i == |a| || (i < |b| && a[i] < b[i]))
  {
    if a == [] {
      assert a[..0] == b[..0];
    } else if b != [] && a[0] == b[0] {
      KeyLeqMeans(a[1..], b[1..]);
      if KeyLeq(a[1..], b[1..]) {
        var i :| && 0 <= i <= |a[1..]| && i <= |b[1..]| && a[1..][..i] == b[1..][..i]
                 && (i == |a[1..]| || (i < |b[1..]| && a[1..][i] < b[1..][i]));
        assert a[..i + 1] == [a[0]] + a[1..][..i] == [b[0]] + b[1..][..i] == b[..i + 1];
      }
      if i :| && 0 <= i <= |a| && i <= |b| && a[..i] == b[..i] && (i == |a| || (i < |b| && a[i] < b[i])) {
        assert i > 0;
        assert a[1..][..i - 1] == a[..i][1..] == b[..i][1..] == b[1..][..i - 1];
      }
    } else if b != [] && a[0] < b[0] {
      assert a[..0] == b[..0];
    }
  }

  lemma {:induction false} KeyLeqTotal(a: string, b: string)
    ensures KeyLeq(a, b) || KeyLeq(b, a)
    ensures KeyLeq(a, b) && KeyLeq(b, a) ==> a == b
  {
    if a != [] && b != [] {
      KeyLeqTotal(a[1..], b[1..]);
      assert a == [a[0]] + a[1..] && b == [b[0]] + b[1..];
    }
  }

  lemma {:induction false} KeyLeqTransitive(a: string, b: string, c: string)
    requires KeyLeq(a, b) && KeyLeq(b, c)
    ensures KeyLeq(a, c)
  {
    if a != [] && b != [] && c != [] && a[0] == b[0] == c[0] {
      KeyLeqTransitive(a[1..], b[1..], c[1..]);
    }
  }

  predicate IsLeast(k: string, keys: set<string>) {
    k in keys && forall o :: o in keys ==> KeyLeq(k, o)
  }

  lemma LeastIsUnique(k: string, o: string, keys: set<string>)
    requires IsLeast(k, keys) && IsLeast(o, keys)
    ensures k == o
  {
    KeyLeqTotal(k, o);
  }

  lemma {:induction false} LeastExists(keys: set<string>)
    requires keys != {}
    ensures exists k :: IsLeast(k, keys)
  {
    var x :| x in keys;
    var others := keys - {x};
    if others == {} {
      assert keys == {x};
      KeyLeqTotal(x, x);
      assert IsLeast(x, keys);
    } else {
      LeastExists(others);
      var y :| IsLeast(y, others);
      KeyLeqTotal(x, y);
      KeyLeqTotal(x, x);
      if KeyLeq(y, x) {
        assert IsLeast(y, keys);
      } else {
        forall o | o in keys ensures KeyLeq(x, o) {
          if o != x {
            KeyLeqTransitive(x, y, o);
          }
        }
        assert IsLeast(x, keys);
      }
    }
  }

  /** The keys in ascending order. */
  function SortedKeys(keys: set<string>): (sorted: seq<string>)
    ensures forall k :: k in sorted <==> k in keys
    ensures forall i, j :: 0 <= i < j < |sorted| ==> KeyLeq(sorted[i], sorted[j]) && sorted[i] != sorted[j]
    decreases |keys|
  {
    if keys == {} then []
    else
      LeastExists(keys);
      assert forall k, o :: IsLeast(k, keys) && IsLeast(o, keys) ==> k == o by {
        forall k, o | IsLeast(k, keys) && IsLeast(o, keys) ensures k == o {
          LeastIsUnique(k, o, keys);
        }
      }
      var k :| IsLeast(k, keys);
      [k] + SortedKeys(keys - {k})
  }

  datatype Token =
    | LeftBrace | RightBrace | LeftBracket | RightBracket | Comma | Colon
    | TNull | TBool(b: bool) | TNumber(literal: string) | TString(s: string)

  /** json.Marshal of a decoded value. */
  function Marshal(v: Value): seq<Token>
    decreases v, 1
  {
    match v
    case Null => [TNull]
    case Bool(b) => [TBool(b)]
    case Number(literal) => [TNumber(literal)]
    case String(s) => [TString(s)]
    case Array(items) => [LeftBracket] + MarshalItems(v, items, 0)
    case Object(fields) => [LeftBrace] + MarshalFields(v, fields, SortedKeys(fields.Keys), 0)
  }

  /** The elements from position i on, with the closing bracket. */
  function MarshalItems(v: Value, items: seq<Value>, i: nat): seq<Token>
    requires v == Array(items) && i <= |items|
    decreases v, 0, |items| - i
  {
    if i == |items| then [RightBracket]
    else (if i == 0 then [] else [Comma]) + Marshal(items[i]) + MarshalItems(v, items, i + 1)
  }

  function MarshalFields(v: Value, fields: map<string, Value>, keys: seq<string>, i: nat): seq<Token>
    requires v == Object(fields) && i <= |keys| && forall k :: k in keys ==> k in fields
    decreases v, 0, |keys| - i
  {
    if i == |keys| then [RightBrace]
    else (if i == 0 then [] else [Comma]) + [TString(keys[i]), Colon] + Marshal(fields[keys[i]])
         + MarshalFields(v, fields, keys, i + 1)
  }

  function FirstToken(v: Value): Token {
    match v
    case Null => TNull
    case Bool(b) => TBool(b)
    case Number(literal) => TNumber(literal)
    case String(s) => TString(s)
    case Array(_) => LeftBracket
    case Object(_) => LeftBrace
  }

  ghost function OtherTokens(v: Value): seq<Token> {
    match v
    case Array(items) => MarshalItems(v, items, 0)
    case Object(fields) => MarshalFields(v, fields, SortedKeys(fields.Keys), 0)
    case _ => []
  }

  lemma {:induction false} MarshalSplit(v: Value, r: seq<Token>)
    ensures Marshal(v) + r == [FirstToken(v)] + (OtherTokens(v) + r)
  {
    assert Marshal(v) == [FirstToken(v)] + OtherTokens(v);
  }

  lemma SameHeadAndTail(x: Token, xs: seq<Token>, y: Token, ys: seq<Token>)
    requires [x] + xs == [y] + ys
    ensures x == y && xs == ys
  {
    assert ([x] + xs)[0] == ([y] + ys)[0];
    assert xs == ([x] + xs)[1..] == ([y] + ys)[1..] == ys;
  }

  /** Canonical output determines the value, whatever follows it. */
  lemma {:induction false} MarshalIsPrefixFree(a: Value, b: Value, ra: seq<Token>, rb: seq<Token>)
    requires Marshal(a) + ra == Marshal(b) + rb
    ensures a == b && ra == rb
    decreases a, 1
  {
    MarshalSplit(a, ra);
    MarshalSplit(b, rb);
    SameHeadAndTail(FirstToken(a), OtherTokens(a) + ra, FirstToken(b), OtherTokens(b) + rb);
    match a {
      case Array(items) =>
        ItemsArePrefixFree(a, b, 0, ra, rb);
      case Object(fields) =>
        var keys := SortedKeys(fields.Keys);
        FieldsArePrefixFree(a, b, keys, SortedKeys(b.fields.Keys), 0, ra, rb);
        assert fields == b.fields by {
          assert fields.Keys == b.fields.Keys;
        }
      case _ =>
        assert OtherTokens(a) + ra == ra && OtherTokens(b) + rb == rb;
    }
  }

  /** One element split off: an optional comma, the value, and the rest. */
  lemma ItemSplit(a: Value, i: nat, r: seq<Token>)
    requires a.Array? && i < |a.items|
    ensures var t := MarshalItems(a, a.items, i) + r;
            var skip := if i == 0 then 0 else 1;
            && |t| > skip && t[0] != RightBracket
            && t[skip..] == Marshal(a.items[i]) + (MarshalItems(a, a.items, i + 1) + r)
  {
    MarshalStart(a.items[i]);
    var sep := if i == 0 then [] else [Comma];
    assert MarshalItems(a, a.items, i) + r == sep + (Marshal(a.items[i]) + (MarshalItems(a, a.items, i + 1) + r));
  }

  lemma {:induction false} ItemsArePrefixFree(a: Value, b: Value, i: nat, ra: seq<Token>, rb: seq<Token>)
    requires a.Array? && b.Array? && i <= |a.items| && i <= |b.items| && a.items[..i] == b.items[..i]
    requires MarshalItems(a, a.items, i) + ra == MarshalItems(b, b.items, i) + rb
    ensures a == b && ra == rb
    decreases a, 0, |a.items| - i
  {
    var ta, tb := MarshalItems(a, a.items, i) + ra, MarshalItems(b, b.items, i) + rb;
    if i == |a.items| || i == |b.items| {
      if i < |a.items| {
        ItemSplit(a, i, ra);
      }
      if i < |b.items| {
        ItemSplit(b, i, rb);
      }
      assert ta == tb && (i == |a.items| ==> ta[0] == RightBracket) && (i == |b.items| ==> tb[0] == RightBracket);
      assert ra == ta[1..] == tb[1..] == rb;
      assert a.items == a.items[..i] && b.items == b.items[..i];
    } else {
      ItemSplit(a, i, ra);
      ItemSplit(b, i, rb);
      MarshalIsPrefixFree(a.items[i], b.items[i],
                          MarshalItems(a, a.items, i + 1) + ra, MarshalItems(b, b.items, i + 1) + rb);
      assert a.items[..i + 1] == a.items[..i] + [a.items[i]] == b.items[..i] + [b.items[i]] == b.items[..i + 1];
      ItemsArePrefixFree(a, b, i + 1, ra, rb);
    }
  }

  lemma MarshalStart(v: Value)
    ensures Marshal(v) != [] && Marshal(v)[0] != RightBracket
  {
  }

  /** One field split off: an optional comma, the key, a colon, the value, and the rest. */
  lemma FieldSplit(a: Value, keys: seq<string>, i: nat, r: seq<Token>)
    requires a.Object? && i < |keys| && forall k :: k in keys ==> k in a.fields
    ensures var t := MarshalFields(a, a.fields, keys, i) + r;
            var skip := if i == 0 then 2 else 3;
            && |t| > skip && t[skip - 2] == TString(keys[i])
            && t[0] != RightBrace
            && t[skip..] == Marshal(a.fields[keys[i]]) + (MarshalFields(a, a.fields, keys, i + 1) + r)
  {
    MarshalStart(a.fields[keys[i]]);
    var head := if i == 0 then [TString(keys[i]), Colon] else [Comma, TString(keys[i]), Colon];
    var tail := Marshal(a.fields[keys[i]]) + (MarshalFields(a, a.fields, keys, i + 1) + r);
    assert MarshalFields(a, a.fields, keys, i) + r == head + tail;
  }

  lemma {:induction false} FieldsArePrefixFree(a: Value, b: Value, ka: seq<string>, kb: seq<string>, i: nat,
                                               ra: seq<Token>, rb: seq<Token>)
    requires a.Object? && b.Object? && i <= |ka| && i <= |kb| && ka[..i] == kb[..i]
    requires (forall k :: k in ka ==> k in a.fields) && (forall k :: k in kb ==> k in b.fields)
    requires forall j :: 0 <= j < i ==> a.fields[ka[j]] == b.fields[kb[j]]
    requires MarshalFields(a, a.fields, ka, i) + ra == MarshalFields(b, b.fields, kb, i) + rb
    ensures ka == kb && ra == rb && forall j :: 0 <= j < |ka| ==> a.fields[ka[j]] == b.fields[ka[j]]
    decreases a, 0, |ka| - i
  {
    var ta, tb := MarshalFields(a, a.fields, ka, i) + ra, MarshalFields(b, b.fields, kb, i) + rb;
    if i == |ka| || i == |kb| {
      if i < |ka| {
        FieldSplit(a, ka, i, ra);
      }
      if i < |kb| {
        FieldSplit(b, kb, i, rb);
      }
      assert ta == tb && (i == |ka| ==> ta[0] == RightBrace) && (i == |kb| ==> tb[0] == RightBrace);
      assert ra == ta[1..] == tb[1..] == rb;
      assert ka == ka[..i] && kb == kb[..i];
    } else {
      FieldSplit(a, ka, i, ra);
      FieldSplit(b, kb, i, rb);
      MarshalIsPrefixFree(a.fields[ka[i]], b.fields[kb[i]],
                          MarshalFields(a, a.fields, ka, i + 1) + ra, MarshalFields(b, b.fields, kb, i + 1) + rb);
      assert ka[..i + 1] == ka[..i] + [ka[i]] == kb[..i] + [kb[i]] == kb[..i + 1];
      FieldsArePrefixFree(a, b, ka, kb, i + 1, ra, rb);
    }
  }

  // ---- what the comparison means ----

  /** Two documents have the same canonical form exactly when they denote the same nested maps and sequences:
      key order and overwritten duplicates do not matter, number literals do. */
  lemma CanonicalFormsEqualIff(a: Json, b: Json)
    ensures Marshal(Decode(a)) == Marshal(Decode(b)) <==> Decode(a) == Decode(b)
  {
    if Marshal(Decode(a)) == Marshal(Decode(b)) {
      MarshalIsPrefixFree(Decode(a), Decode(b), [], []);
    }
  }

  /** The position of the last member with this key; the number of members if there is none. */
  function LastMember(members: seq<Member>, key: string): nat {
    if members == [] then 0
    else if members[|members| - 1].key == key then |members| - 1
    else
      var i := LastMember(members[..|members| - 1], key);
      if i == |members| - 1 then |members| else i
  }

  /** An object denotes, for each of its keys, the value of the last member with that key. */
  lemma {:induction false} LastDuplicateWins(members: seq<Member>, key: string)
    ensures var i := LastMember(members, key);
            && i <= |members|
            && (i < |members| <==> key in DecodeMembers(members))
            && (i < |members| ==> members[i].key == key && DecodeMembers(members)[key] == Decode(members[i].value))
            && (forall j :: i < j < |members| ==> members[j].key != key)
  {
    if members != [] {
      LastDuplicateWins(members[..|members| - 1], key);
    }
  }

  /** The document json.Marshal wrote, read back as a tree. */
  ghost function Rendered(v: Value): Json
    decreases v, 1
  {
    match v
    case Null => JNull
    case Bool(b) => JBool(b)
    case Number(literal) => JNumber(literal)
    case String(s) => JString(s)
    case Array(items) => JArray(RenderedItems(v, items, 0))
    case Object(fields) => JObject(RenderedFields(v, fields, SortedKeys(fields.Keys), 0))
  }

  ghost function RenderedItems(v: Value, items: seq<Value>, i: nat): seq<Json>
    requires v == Array(items) && i <= |items|
    decreases v, 0, |items| - i
  {
    if i == |items| then [] else [Rendered(items[i])] + RenderedItems(v, items, i + 1)
  }

  ghost function RenderedFields(v: Value, fields: map<string, Value>, keys: seq<string>, i: nat): seq<Member>
    requires v == Object(fields) && i <= |keys| && forall k :: k in keys ==> k in fields
    decreases v, 0, |keys| - i
  {
    if i == |keys| then []
    else [Member(keys[i], Rendered(fields[keys[i]]))] + RenderedFields(v, fields, keys, i + 1)
  }

  /** A document as it is written down, in its own member order. */
  function Print(j: Json): seq<Token>
    decreases j, 1
  {
    match j
    case JNull => [TNull]
    case JBool(b) => [TBool(b)]
    case JNumber(literal) => [TNumber(literal)]
    case JString(s) => [TString(s)]
    case JArray(items) => [LeftBracket] + PrintItems(items, true)
    case JObject(members) => [LeftBrace] + PrintMembers(members, true)
  }

  function PrintItems(items: seq<Json>, first: bool): seq<Token>
    decreases items, 0
  {
    if items == [] then [RightBracket]
    else (if first then [] else [Comma]) + Print(items[0]) + PrintItems(items[1..], false)
  }

  function PrintMembers(members: seq<Member>, first: bool): seq<Token>
    decreases members, 0
  {
    if members == [] then [RightBrace]
    else (if first then [] else [Comma]) + [TString(members[0].key), Colon] + Print(members[0].value)
         + PrintMembers(members[1..], false)
  }

  /** The rendered document is written down as exactly the canonical form. */
  lemma {:induction false} RenderedIsCanonical(v: Value)
    ensures Print(Rendered(v)) == Marshal(v)
    decreases v, 1
  {
    match v {
      case Array(items) => ItemsPrint(v, 0);
      case Object(fields) => FieldsPrint(v, SortedKeys(fields.Keys), 0);
      case _ =>
    }
  }

  lemma {:induction false} ItemsPrint(v: Value, i: nat)
    requires v.Array? && i <= |v.items|
    ensures PrintItems(RenderedItems(v, v.items, i), i == 0) == MarshalItems(v, v.items, i)
    decreases v, 0, |v.items| - i
  {
    if i < |v.items| {
      RenderedIsCanonical(v.items[i]);
      ItemsPrint(v, i + 1);
      assert RenderedItems(v, v.items, i)[1..] == RenderedItems(v, v.items, i + 1);
    }
  }

  lemma {:induction false} FieldsPrint(v: Value, keys: seq<string>, i: nat)
    requires v.Object? && i <= |keys| && forall k :: k in keys ==> k in v.fields
    ensures PrintMembers(RenderedFields(v, v.fields, keys, i), i == 0) == MarshalFields(v, v.fields, keys, i)
    decreases v, 0, |keys| - i
  {
    if i < |keys| {
      RenderedIsCanonical(v.fields[keys[i]]);
      FieldsPrint(v, keys, i + 1);
      assert RenderedFields(v, v.fields, keys, i)[1..] == RenderedFields(v, v.fields, keys, i + 1);
    }
  }

  /** Reading the rendered document gives the value back. */
  lemma {:induction false} RenderedDecodes(v: Value)
    ensures Decode(Rendered(v)) == v
    decreases v, 1
  {
    match v {
      case Array(items) => ItemsRoundTrip(v, 0);
        assert items[0..] == items;
      case Object(fields) =>
        var keys := SortedKeys(fields.Keys);
        FieldsRoundTrip(v, keys, 0);
        assert keys[0..] == keys;
        assert DecodeMembers(RenderedFields(v, fields, keys, 0)) == fields;
      case _ =>
    }
  }

  lemma {:induction false} ItemsRoundTrip(v: Value, i: nat)
    requires v.Array? && i <= |v.items|
    ensures DecodeItems(RenderedItems(v, v.items, i)) == v.items[i..]
    decreases v, 0, |v.items| - i
  {
    if i < |v.items| {
      RenderedDecodes(v.items[i]);
      ItemsRoundTrip(v, i + 1);
      assert RenderedItems(v, v.items, i)[1..] == RenderedItems(v, v.items, i + 1);
    }
  }

  /** Prepending a member with a new key adds that key. */
  lemma {:induction false} DecodePrepended(m: Member, rest: seq<Member>)
    requires m.key !in DecodeMembers(rest)
    ensures DecodeMembers([m] + rest) == DecodeMembers(rest)[m.key := Decode(m.value)]
  {
    if rest == [] {
      assert [m] + rest == [m] && [m][..0] == [];
    } else {
      var front, last := rest[..|rest| - 1], rest[|rest| - 1];
      assert ([m] + rest)[..|rest|] == [m] + front;
      DecodePrepended(m, front);
    }
  }

  lemma {:induction false} FieldsRoundTrip(v: Value, keys: seq<string>, i: nat)
    requires v.Object? && i <= |keys| && forall k :: k in keys ==> k in v.fields
    requires forall j, k :: 0 <= j < k < |keys| ==> keys[j] != keys[k]
    ensures DecodeMembers(RenderedFields(v, v.fields, keys, i)) == map k | k in keys[i..] :: v.fields[k]
    decreases v, 0, |keys| - i
  {
    if i < |keys| {
      RenderedDecodes(v.fields[keys[i]]);
      FieldsRoundTrip(v, keys, i + 1);
      assert keys[i..] == [keys[i]] + keys[i + 1..];
      DecodePrepended(Member(keys[i], Rendered(v.fields[keys[i]])), RenderedFields(v, v.fields, keys, i + 1));
    }
  }

  // ---- what is written down can be read in one way only ----

  function PrintedHead(j: Json): Token {
    match j
    case JNull => TNull
    case JBool(b) => TBool(b)
    case JNumber(literal) => TNumber(literal)
    case JString(s) => TString(s)
    case JArray(_) => LeftBracket
    case JObject(_) => LeftBrace
  }

  function PrintedTail(j: Json): seq<Token> {
    match j
    case JArray(items) => PrintItems(items, true)
    case JObject(members) => PrintMembers(members, true)
    case _ => []
  }

  lemma {:induction false} PrintSplit(j: Json, r: seq<Token>)
    ensures Print(j) + r == [PrintedHead(j)] + (PrintedTail(j) + r)
  {
    assert Print(j) == [PrintedHead(j)] + PrintedTail(j);
  }

  lemma {:induction false} PrintIsPrefixFree(a: Json, b: Json, ra: seq<Token>, rb: seq<Token>)
    requires Print(a) + ra == Print(b) + rb
    ensures a == b && ra == rb
    decreases a, 1
  {
    PrintSplit(a, ra);
    PrintSplit(b, rb);
    SameHeadAndTail(PrintedHead(a), PrintedTail(a) + ra, PrintedHead(b), PrintedTail(b) + rb);
    match a {
      case JArray(items) => PrintedItemsArePrefixFree(items, b.items, true, ra, rb);
      case JObject(members) => PrintedMembersArePrefixFree(members, b.members, true, ra, rb);
      case _ =>
        assert PrintedTail(a) + ra == ra && PrintedTail(b) + rb == rb;
    }
  }

  lemma Regroup(a: seq<Token>, b: seq<Token>, c: seq<Token>, d: seq<Token>)
    ensures a + b + c + d == a + (b + (c + d))
    ensures (a + (b + (c + d)))[|a|..] == b + (c + d)
  {
  }

  lemma PrintStart(j: Json)
    ensures Print(j) != [] && Print(j)[0] != RightBracket
  {
  }

  lemma {:induction false} PrintedItemSplit(items: seq<Json>, first: bool, r: seq<Token>)
    requires items != []
    ensures var t := PrintItems(items, first) + r;
            var skip := if first then 0 else 1;
            && |t| > skip && t[0] != RightBracket
            && t[skip..] == Print(items[0]) + (PrintItems(items[1..], false) + r)
  {
    PrintStart(items[0]);
    Regroup(if first then [] else [Comma], Print(items[0]), PrintItems(items[1..], false), r);
  }

  lemma {:induction false} PrintedItemsArePrefixFree(a: seq<Json>, b: seq<Json>, first: bool,
                                                     ra: seq<Token>, rb: seq<Token>)
    requires PrintItems(a, first) + ra == PrintItems(b, first) + rb
    ensures a == b && ra == rb
    decreases a, 0
  {
    if a == [] || b == [] {
      if a != [] {
        PrintedItemSplit(a, first, ra);
      }
      if b != [] {
        PrintedItemSplit(b, first, rb);
      }
      var ta, tb := PrintItems(a, first) + ra, PrintItems(b, first) + rb;
      assert ta == tb && (a == [] ==> ta[0] == RightBracket) && (b == [] ==> tb[0] == RightBracket);
      assert ra == ta[1..] == tb[1..] == rb;
    } else {
      PrintedItemSplit(a, first, ra);
      PrintedItemSplit(b, first, rb);
      PrintIsPrefixFree(a[0], b[0], PrintItems(a[1..], false) + ra, PrintItems(b[1..], false) + rb);
      PrintedItemsArePrefixFree(a[1..], b[1..], false, ra, rb);
      assert a == [a[0]] + a[1..] && b == [b[0]] + b[1..];
    }
  }

  lemma {:induction false} PrintedMemberSplit(members: seq<Member>, first: bool, r: seq<Token>)
    requires members != []
    ensures var t := PrintMembers(members, first) + r;
            var skip := if first then 2 else 3;
            && |t| > skip && t[skip - 2] == TString(members[0].key) && t[0] != RightBrace
            && t[skip..] == Print(members[0].value) + (PrintMembers(members[1..], false) + r)
  {
    var m := members[0];
    var head := if first then [TString(m.key), Colon] else [Comma, TString(m.key), Colon];
    assert (if first then [] else [Comma]) + [TString(m.key), Colon] == head;
    Regroup(head, Print(m.value), PrintMembers(members[1..], false), r);
  }

  lemma {:induction false} PrintedMembersArePrefixFree(a: seq<Member>, b: seq<Member>, first: bool,
                                                       ra: seq<Token>, rb: seq<Token>)
    requires PrintMembers(a, first) + ra == PrintMembers(b, first) + rb
    ensures a == b && ra == rb
    decreases a, 0
  {
    if a == [] || b == [] {
      if a != [] {
        PrintedMemberSplit(a, first, ra);
      }
      if b != [] {
        PrintedMemberSplit(b, first, rb);
      }
      var ta, tb := PrintMembers(a, first) + ra, PrintMembers(b, first) + rb;
      assert ta == tb && (a == [] ==> ta[0] == RightBrace) && (b == [] ==> tb[0] == RightBrace);
      assert ra == ta[1..] == tb[1..] == rb;
    } else {
      PrintedMemberSplit(a, first, ra);
      PrintedMemberSplit(b, first, rb);
      PrintIsPrefixFree(a[0].value, b[0].value, PrintMembers(a[1..], false) + ra, PrintMembers(b[1..], false) + rb);
      PrintedMembersArePrefixFree(a[1..], b[1..], false, ra, rb);
      assert a == [a[0]] + a[1..] && b == [b[0]] + b[1..];
    }
  }

  /** Canonicalising is idempotent: whatever document the canonical form of v is read as, it denotes v, and so has
      the same canonical form again. */
  lemma CanonicalIsIdempotent(v: Value, j: Json)
    requires Print(j) == Marshal(v)
    ensures Decode(j) == v && Marshal(Decode(j)) == Print(j)
  {
    RenderedIsCanonical(v);
    assert Print(j) + [] == Print(Rendered(v)) + [];
    PrintIsPrefixFree(j, Rendered(v), [], []);
    RenderedDecodes(v);
  }

  // ---- canonicalEqual ----

  /** canonicalEqual, for any decoder: bytes that do not decode are compared as bytes. */
  predicate CanonicalEqual(parse: string -> Option<Json>, a: string, b: string) {
    if parse(a).None? || parse(b).None? then a == b
    else Marshal(Decode(parse(a).value)) == Marshal(Decode(parse(b).value))
  }

  /** It means: the same value, or the same undecodable bytes; hence it is an equivalence relation. */
  lemma CanonicalEqualMeaning(parse: string -> Option<Json>, a: string, b: string)
    ensures CanonicalEqual(parse, a, b) <==>
            if parse(a).Some? && parse(b).Some? then Decode(parse(a).value) == Decode(parse(b).value) else a == b
  {
    if parse(a).Some? && parse(b).Some? {
      CanonicalFormsEqualIff(parse(a).value, parse(b).value);
    }
  }

  lemma CanonicalEqualIsEquivalence(parse: string -> Option<Json>, a: string, b: string, c: string)
    ensures CanonicalEqual(parse, a, a)
    ensures CanonicalEqual(parse, a, b) <==> CanonicalEqual(parse, b, a)
    ensures CanonicalEqual(parse, a, b) && CanonicalEqual(parse, b, c) ==> CanonicalEqual(parse, a, c)
  {
  }
}
