/**
 * JSON documents as written (ordered members, duplicates allowed) and as decoded
 * (a map from key to value), with the two writers the audit trail meets: Go's
 * json.Marshal, which sorts keys bytewise, and Postgres jsonb, which stores keys in
 * an order of its own and numbers as decimals of its own. A number is a literal; a reader that
 * respells literals (Go through float64, jsonb through numeric) is a function on them.
 */
module Json {

  datatype Json =
    | Null
    | Bool(b: bool)
    | Number(literal: string)
    | Text(s: string)
    | Array(items: seq<Json>)
    | Object(members: seq<Member>)

  datatype Member = Member(key: string, value: Json)

  datatype Value =
    | NullValue
    | BoolValue(b: bool)
    | NumberValue(literal: string)
    | TextValue(s: string)
    | ArrayValue(items: seq<Value>)
    | ObjectValue(fields: map<string, Value>)

  type KeyOrder = (string, string) -> bool

  ghost predicate TotalOrder(leq: KeyOrder) {
    && (forall a, b :: leq(a, b) || leq(b, a))
    && (forall a, b :: leq(a, b) && leq(b, a) ==> a == b)
    && (forall a, b, c :: leq(a, b) && leq(b, c) ==> leq(a, c))
  }

  /** json.Unmarshal into an `any`: a repeated key keeps its last value. */
  function Decode(j: Json): (v: Value)
    decreases j, 0
  {
    match j
    case Null => NullValue
    case Bool(b) => BoolValue(b)
    case Number(n) => NumberValue(n)
    case Text(s) => TextValue(s)
    case Array(items) => ArrayValue(seq(|items|, i requires 0 <= i < |items| => Decode(items[i])))
    case Object(members) => ObjectValue(DecodeMembers(members))
  }

  function DecodeMembers(members: seq<Member>): (fields: map<string, Value>)
    decreases members, 1
  {
    if |members| == 0 then map[]
    else
      var last := members[|members| - 1];
      DecodeMembers(members[..|members| - 1])[last.key := Decode(last.value)]
  }

  type Spelling = string -> string

  /** Every number respelled. */
  function Respell(f: Spelling, v: Value): (r: Value) {
    match v
    case NumberValue(n) => NumberValue(f(n))
    case ArrayValue(items) => ArrayValue(seq(|items|, i requires 0 <= i < |items| => Respell(f, items[i])))
    case ObjectValue(fields) => ObjectValue(map k | k in fields :: Respell(f, fields[k]))
    case _ => v
  }

  /** No number of the value looks different to the reader after the keeper has respelled it. */
  predicate Kept(reader: Spelling, keeper: Spelling, v: Value) {
    match v
    case NumberValue(n) => reader(keeper(n)) == reader(n)
    case ArrayValue(items) => forall i :: 0 <= i < |items| ==> Kept(reader, keeper, items[i])
    case ObjectValue(fields) => forall k :: k in fields ==> Kept(reader, keeper, fields[k])
    case _ => true
  }

  /** Reading what was kept is reading the original exactly when every number is kept. */
  lemma {:induction false} RespellTwiceIff(reader: Spelling, keeper: Spelling, v: Value)
    ensures Respell(reader, Respell(keeper, v)) == Respell(reader, v) <==> Kept(reader, keeper, v)
  {
    match v
    case ArrayValue(items) =>
      var a, b := Respell(reader, Respell(keeper, v)).items, Respell(reader, v).items;
      forall i | 0 <= i < |items| ensures a[i] == b[i] <==> Kept(reader, keeper, items[i]) {
        RespellTwiceIff(reader, keeper, items[i]);
      }
      assert a == b <==> forall i :: 0 <= i < |items| ==> a[i] == b[i];
    case ObjectValue(fields) =>
      var a, b := Respell(reader, Respell(keeper, v)).fields, Respell(reader, v).fields;
      forall k | k in fields ensures a[k] == b[k] <==> Kept(reader, keeper, fields[k]) {
        RespellTwiceIff(reader, keeper, fields[k]);
      }
      assert a == b <==> forall k :: k in fields ==> a[k] == b[k];
    case _ =>
  }

  lemma {:induction false} AllKept(f: Spelling, v: Value)
    requires forall n :: f(f(n)) == f(n)
    ensures Kept(f, f, v)
  {
    match v
    case ArrayValue(items) =>
      forall i | 0 <= i < |items| ensures Kept(f, f, items[i]) { AllKept(f, items[i]); }
    case ObjectValue(fields) =>
      forall k | k in fields ensures Kept(f, f, fields[k]) { AllKept(f, fields[k]); }
    case _ =>
  }

  ghost predicate IsLeast(leq: KeyOrder, k: string, keys: set<string>) {
    k in keys && forall k' | k' in keys :: leq(k, k')
  }

  lemma Least(leq: KeyOrder, keys: set<string>) returns (k: string)
    requires TotalOrder(leq) && keys != {}
    ensures IsLeast(leq, k, keys)
  {
    k :| k in keys;
    if keys != {k} {
      var m := Least(leq, keys - {k});
      if !leq(k, m) {
        k := m;
      }
    }
  }

  lemma LeastExists(leq: KeyOrder, keys: set<string>)
    requires TotalOrder(leq) && keys != {}
    ensures exists k :: k in keys && forall k' | k' in keys :: leq(k, k')
  {
    var k := Least(leq, keys);
  }

  /** The keys of an object in writing order. */
  function SortedKeys(leq: KeyOrder, keys: set<string>): (sorted: seq<string>)
    requires TotalOrder(leq)
    ensures forall k :: k in sorted <==> k in keys
    ensures forall i, j :: 0 <= i < j < |sorted| ==> sorted[i] != sorted[j] && leq(sorted[i], sorted[j])
  {
    if keys == {} then []
    else
      LeastExists(leq, keys);
      var k :| k in keys && forall k' | k' in keys :: leq(k, k');
      [k] + SortedKeys(leq, keys - {k})
  }

  /** Write a decoded value with keys in the given order. */
  function Encode(leq: KeyOrder, v: Value): (j: Json)
    requires TotalOrder(leq)
    decreases v
  {
    match v
    case NullValue => Null
    case BoolValue(b) => Bool(b)
    case NumberValue(n) => Number(n)
    case TextValue(s) => Text(s)
    case ArrayValue(items) => Array(seq(|items|, i requires 0 <= i < |items| => Encode(leq, items[i])))
    case ObjectValue(fields) =>
      var keys := SortedKeys(leq, fields.Keys);
      Object(seq(|keys|, i requires 0 <= i < |keys| => Member(keys[i], Encode(leq, fields[keys[i]]))))
  }

  /** Strings compared byte by byte, as Go sorts map keys. */
  predicate BytewiseLeq(a: string, b: string) {
    if a == "" then true
    else if b == "" then false
    else if a[0] == b[0] then BytewiseLeq(a[1..], b[1..])
    else a[0] < b[0]
  }

  lemma {:induction false} BytewiseAntisymmetric(a: string, b: string)
    requires BytewiseLeq(a, b) && BytewiseLeq(b, a)
    ensures a == b
  {
    if a != "" && b != "" {
      BytewiseAntisymmetric(a[1..], b[1..]);
      assert a == [a[0]] + a[1..] && b == [b[0]] + b[1..];
    }
  }

  lemma {:induction false} BytewiseTransitive(a: string, b: string, c: string)
    requires BytewiseLeq(a, b) && BytewiseLeq(b, c)
    ensures BytewiseLeq(a, c)
  {
    if a != "" && b != "" && c != "" && a[0] == b[0] == c[0] {
      BytewiseTransitive(a[1..], b[1..], c[1..]);
    }
  }

  lemma {:induction false} BytewiseTotal(a: string, b: string)
    ensures BytewiseLeq(a, b) || BytewiseLeq(b, a)
  {
    if a != "" && b != "" && a[0] == b[0] {
      BytewiseTotal(a[1..], b[1..]);
    }
  }

  lemma BytewiseIsTotalOrder()
    ensures TotalOrder(BytewiseLeq)
  {
    forall a, b ensures BytewiseLeq(a, b) || BytewiseLeq(b, a) { BytewiseTotal(a, b); }
    forall a, b | BytewiseLeq(a, b) && BytewiseLeq(b, a) ensures a == b { BytewiseAntisymmetric(a, b); }
    forall a, b, c | BytewiseLeq(a, b) && BytewiseLeq(b, c) ensures BytewiseLeq(a, c) { BytewiseTransitive(a, b, c); }
  }

  /** That order in other words: a prefix comes first, otherwise the first character that differs decides. */
  lemma {:induction false} BytewiseLeqIff(a: string, b: string)
    ensures BytewiseLeq(a, b) <==> a <= b || exists i :: 0 <= i < |a| && i < |b| && a[..i] == b[..i] && a[i] < b[i]
  {
    if a != "" && b != "" {
      var c, d := a[1..], b[1..];
      BytewiseLeqIff(c, d);
      if a[0] == b[0] {
        assert c <= d <==> a <= b;
        if i :| 0 <= i < |c| && i < |d| && c[..i] == d[..i] && c[i] < d[i] {
          assert a[..i + 1] == [a[0]] + c[..i] && b[..i + 1] == [b[0]] + d[..i];
          assert a[i + 1] < b[i + 1];
        }
        if i :| 0 <= i < |a| && i < |b| && a[..i] == b[..i] && a[i] < b[i] {
          assert c[..i - 1] == a[..i][1..] && d[..i - 1] == b[..i][1..];
          assert c[i - 1] < d[i - 1];
        }
      } else {
        assert a[0] < b[0] ==> a[..0] == b[..0];
        forall i | 0 < i < |a| && i < |b| ensures a[..i] != b[..i] {
          assert a[..i][0] != b[..i][0];
        }
      }
    } else if b != "" {
      assert a <= b;
    }
  }

  /** Decode, with every number through the reader's float64, then marshal: the canonical form. */
  function Canonical(reader: Spelling, j: Json): (c: Json) {
    BytewiseIsTotalOrder();
    Encode(BytewiseLeq, Respell(reader, Decode(j)))
  }

  /** What a jsonb column makes of a document: the last of repeated keys, its own key order, its own decimals. */
  function Stored(leq: KeyOrder, keeper: Spelling, j: Json): (s: Json)
    requires TotalOrder(leq)
  {
    Encode(leq, Respell(keeper, Decode(j)))
  }

  lemma {:induction false} DecodeDistinctMembers(members: seq<Member>)
    requires forall i, j :: 0 <= i < j < |members| ==> members[i].key != members[j].key
    ensures var f := DecodeMembers(members);
      && (forall k :: k in f <==> exists i :: 0 <= i < |members| && members[i].key == k)
      && (forall i :: 0 <= i < |members| ==> members[i].key in f && f[members[i].key] == Decode(members[i].value))
  {
    var n := |members|;
    if n > 0 {
      var front := members[..n - 1];
      DecodeDistinctMembers(front);
      var f := DecodeMembers(members);
      hide Decode;
      forall k ensures k in f <==> exists i :: 0 <= i < n && members[i].key == k {
        if k in f && k != members[n - 1].key {
          assert k in DecodeMembers(front);
          var i :| 0 <= i < n - 1 && front[i].key == k;
          assert members[i].key == k;
        }
        if i :| 0 <= i < n && members[i].key == k && i < n - 1 {
          assert front[i].key == k;
        }
      }
      forall i | 0 <= i < n ensures members[i].key in f && f[members[i].key] == Decode(members[i].value) {
        if i < n - 1 {
          assert front[i] == members[i];
        }
      }
    }
  }

  lemma SameFields(keys: seq<string>, members: seq<Member>, fields: map<string, Value>)
    requires |members| == |keys|
    requires forall k :: k in keys <==> k in fields
    requires forall i, j :: 0 <= i < j < |keys| ==> keys[i] != keys[j]
    requires forall i :: 0 <= i < |keys| ==> members[i].key == keys[i]
    requires forall i :: 0 <= i < |keys| ==> Decode(members[i].value) == fields[keys[i]]
    ensures DecodeMembers(members) == fields
  {
    DecodeDistinctMembers(members);
    var f := DecodeMembers(members);
    forall k ensures k in f <==> k in fields {
      if k in f {
        var i :| 0 <= i < |members| && members[i].key == k;
        assert keys[i] == k;
      }
      if k in fields {
        var i :| 0 <= i < |keys| && keys[i] == k;
        assert members[i].key == k;
      }
    }
    forall k | k in fields ensures f[k] == fields[k] {
      var i :| 0 <= i < |keys| && keys[i] == k;
      assert members[i].key == k;
    }
  }

  lemma SameItems(written: seq<Json>, items: seq<Value>)
    requires |written| == |items| && forall i :: 0 <= i < |items| ==> Decode(written[i]) == items[i]
    ensures Decode(Array(written)) == ArrayValue(items)
  {
  }

  /** Writing a value and reading it back is the identity, whatever the key order. */
  lemma {:induction false} DecodeEncode(leq: KeyOrder, v: Value)
    requires TotalOrder(leq)
    ensures Decode(Encode(leq, v)) == v
    decreases v, 1
  {
    match v
    case ArrayValue(items) =>
      var written := Encode(leq, v).items;
      forall i | 0 <= i < |items| ensures Decode(written[i]) == items[i] {
        DecodeEncode(leq, items[i]);
      }
      SameItems(written, items);
    case ObjectValue(fields) =>
      DecodeEncodeObject(leq, fields);
    case _ =>
  }

  lemma {:induction false} DecodeEncodeObject(leq: KeyOrder, fields: map<string, Value>)
    requires TotalOrder(leq)
    ensures Decode(Encode(leq, ObjectValue(fields))) == ObjectValue(fields)
    decreases ObjectValue(fields), 0
  {
    var keys := SortedKeys(leq, fields.Keys);
    var members := Encode(leq, ObjectValue(fields)).members;
    forall i | 0 <= i < |keys| ensures Decode(members[i].value) == fields[keys[i]] {
      DecodeEncode(leq, fields[keys[i]]);
    }
    SameFields(keys, members, fields);
  }

  /** The canonical form is a normal form: it is equal exactly for documents that read alike. */
  lemma CanonicalIffSameValue(reader: Spelling, a: Json, b: Json)
    ensures Canonical(reader, a) == Canonical(reader, b) <==> Respell(reader, Decode(a)) == Respell(reader, Decode(b))
  {
    BytewiseIsTotalOrder();
    DecodeEncode(BytewiseLeq, Respell(reader, Decode(a)));
    DecodeEncode(BytewiseLeq, Respell(reader, Decode(b)));
  }

  /** Whatever key order and decimals the column uses, the canonical form does not move, exactly when every
      number of the document is one the column keeps. */
  lemma CanonicalSurvivesStorageIff(leq: KeyOrder, reader: Spelling, keeper: Spelling, j: Json)
    requires TotalOrder(leq)
    ensures Canonical(reader, Stored(leq, keeper, j)) == Canonical(reader, j) <==> Kept(reader, keeper, Decode(j))
  {
    CanonicalIffSameValue(reader, Stored(leq, keeper, j), j);
    DecodeEncode(leq, Respell(keeper, Decode(j)));
    RespellTwiceIff(reader, keeper, Decode(j));
  }

  lemma CanonicalIdempotent(reader: Spelling, j: Json)
    requires forall n :: reader(reader(n)) == reader(n)
    ensures Canonical(reader, Canonical(reader, j)) == Canonical(reader, j)
  {
    BytewiseIsTotalOrder();
    AllKept(reader, Decode(j));
    CanonicalSurvivesStorageIff(BytewiseLeq, reader, reader, j);
    assert Canonical(reader, j) == Stored(BytewiseLeq, reader, j);
  }

  /** Swapping two neighbouring members with different keys does not change the canonical form. */
  lemma CanonicalIgnoresMemberOrder(reader: Spelling, before: seq<Member>, x: Member, y: Member, after: seq<Member>)
    requires x.key != y.key
    ensures Canonical(reader, Object(before + [x, y] + after)) == Canonical(reader, Object(before + [y, x] + after))
  {
    SwapMembers(before, x, y, after);
  }

  lemma {:induction false} SwapMembers(before: seq<Member>, x: Member, y: Member,
                                       after: seq<Member>)
    requires x.key != y.key
    ensures DecodeMembers(before + [x, y] + after) == DecodeMembers(before + [y, x] + after)
    decreases |after|
  {
    var n := |after|;
    var p, q := before + [x, y] + after, before + [y, x] + after;
    if n == 0 {
      assert p[..|p| - 1] == before + [x] && q[..|q| - 1] == before + [y];
      assert (before + [x])[..|before|] == before && (before + [y])[..|before|] == before;
    } else {
      SwapMembers(before, x, y, after[..n - 1]);
      assert p[..|p| - 1] == before + [x, y] + after[..n - 1];
      assert q[..|q| - 1] == before + [y, x] + after[..n - 1];
    }
  }

  /** Of several members with one key only the last counts, wherever the others stand. */
  lemma {:induction false} EarlierDuplicateIsLost(before: seq<Member>, x: Member, between: seq<Member>, y: Member,
                                                  after: seq<Member>)
    requires x.key == y.key
    ensures DecodeMembers(before + [x] + between + [y] + after) == DecodeMembers(before + between + [y] + after)
    decreases |after|
  {
    var p, q := before + [x] + between + [y] + after, before + between + [y] + after;
    if after == [] {
      assert p[..|p| - 1] == before + [x] + between && q[..|q| - 1] == before + between;
      DropMember(before, x, between);
      SetKey(DecodeMembers(before + [x] + between), DecodeMembers(before + between), y.key, Decode(y.value));
    } else {
      var n := |after| - 1;
      EarlierDuplicateIsLost(before, x, between, y, after[..n]);
      assert p[..|p| - 1] == before + [x] + between + [y] + after[..n];
      assert q[..|q| - 1] == before + between + [y] + after[..n];
    }
  }

  /** A member matters for its own key only. */
  lemma {:induction false} DropMember(before: seq<Member>, x: Member, between: seq<Member>)
    ensures DecodeMembers(before + [x] + between) - {x.key} == DecodeMembers(before + between) - {x.key}
    decreases |between|
  {
    var p, q := before + [x] + between, before + between;
    if between == [] {
      assert p[..|p| - 1] == before && q == before;
    } else {
      var n := |between| - 1;
      DropMember(before, x, between[..n]);
      assert p[..|p| - 1] == before + [x] + between[..n] && q[..|q| - 1] == before + between[..n];
      DropKey(DecodeMembers(p[..|p| - 1]), DecodeMembers(q[..|q| - 1]), x.key,
              between[n].key, Decode(between[n].value));
    }
  }

  lemma SetKey(f: map<string, Value>, g: map<string, Value>, k: string, v: Value)
    requires f - {k} == g - {k}
    ensures f[k := v] == g[k := v]
  {
    assert f[k := v] == (f - {k})[k := v] && g[k := v] == (g - {k})[k := v];
  }

  lemma DropKey(f: map<string, Value>, g: map<string, Value>, dropped: string, k: string, v: Value)
    requires f - {dropped} == g - {dropped}
    ensures f[k := v] - {dropped} == g[k := v] - {dropped}
  {
    var a, b := f - {dropped}, g - {dropped};
    forall x | x != dropped ensures (x in f <==> x in g) && (x in f ==> f[x] == g[x]) {
      assert x in f <==> x in a;
      assert x in g <==> x in b;
      if x in f {
        assert f[x] == a[x] && g[x] == b[x];
      }
    }
  }

  lemma CanonicalKeepsLastDuplicate(reader: Spelling, before: seq<Member>, x: Member, between: seq<Member>, y: Member,
                                    after: seq<Member>)
    requires x.key == y.key
    ensures Canonical(reader, Object(before + [x] + between + [y] + after))
         == Canonical(reader, Object(before + between + [y] + after))
  {
    EarlierDuplicateIsLost(before, x, between, y, after);
  }
}
