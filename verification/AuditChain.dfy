/**
 * The audit hash chain: the hash input of an entry, the verifier loop, and what an
 * accepted chain commits to. SHA-256 in hex, the RFC3339Nano printer and the JSON
 * printer are parameters; their laws below are facts about the real functions. In
 * particular no collision-freedom is assumed: where two histories could only differ
 * through a collision, the theorems exhibit it.
 */
module AuditChain {
  import opened Basics
  import opened Json
  import Decimal
  import FieldJoin

  /** nil payload bytes, bytes that are not JSON, or a JSON document. */
  datatype Payload = Empty | Malformed | Document(doc: Json)

  /** domain.AuditEntry. Times are nanoseconds since the Unix epoch. */
  datatype Entry = Entry(id: int, tenant: string, actor: string, action: string, entityType: string,
                         entityId: string, payload: Payload, created: int, seqNo: int,
                         prevHash: string, chainHash: string, severity: string)

  /** `number` is a number literal as Go prints it again after reading it as a float64. */
  datatype Env = Env(sha: string -> string, stamp: int -> string, text: Json -> string, number: Spelling)

  predicate HexDigit(c: char) {
    '0' <= c <= '9' || 'a' <= c <= 'f'
  }

  predicate Hex64(s: string) {
    |s| == 64 && forall i :: 0 <= i < 64 ==> HexDigit(s[i])
  }

  /** genesisPrevHash: 64 hex zeros. */
  function Genesis(): (s: string)
    ensures Hex64(s) && forall i :: 0 <= i < 64 ==> s[i] == '0'
  {
    seq(64, i => '0')
  }

  ghost predicate Lawful(env: Env) {
    && (forall x :: Hex64(env.sha(x)))
    && (forall t :: FieldJoin.Plain(env.stamp(t)))
    && (forall t, u :: env.stamp(t) == env.stamp(u) ==> t == u)
    && (forall a, b :: env.text(Canonical(env.number, a)) == env.text(Canonical(env.number, b))
          ==> Canonical(env.number, a) == Canonical(env.number, b))
    && env.text(Null) == "null"
  }

  /** Truncate(time.Microsecond). */
  function Truncate(t: int): (r: int)
    ensures r <= t < r + 1000 && r % 1000 == 0
  {
    t - t % 1000
  }

  /** CanonicalizeEntry: None is the unmarshal error. */
  function Canonicalize(env: Env, payload: Payload): (bytes: Option<string>) {
    match payload
    case Empty => Some("null")
    case Malformed => None
    case Document(doc) => Some(env.text(Canonical(env.number, doc)))
  }

  /** The nine fields the hash covers, in order. */
  function HashFields(env: Env, prev: string, seqNo: int, e: Entry, canonical: string): (fields: seq<string>)
    ensures |fields| == 9
  {
    [prev, Decimal.Format(seqNo), e.tenant, e.actor, e.action, e.entityType, e.entityId, canonical,
     env.stamp(Truncate(e.created))]
  }

  /** HashChainEntry. */
  function HashChainEntry(env: Env, prev: string, seqNo: int, e: Entry, canonical: string): (hash: string) {
    env.sha(FieldJoin.Join(HashFields(env, prev, seqNo, e, canonical)))
  }

  // ---------------------------------------------------------------- verification

  datatype VerifyError =
    | NilEntry(position: nat)
    | NotContiguous(position: nat)
    | NotLinked(position: nat)
    | NotCanonical(position: nat)
    | HashMismatch(position: nat)

  function PrevAt(es: seq<Option<Entry>>, i: nat): (prev: string)
    requires i <= |es|
  {
    if i == 0 || es[i - 1].None? then Genesis() else es[i - 1].value.chainHash
  }

  predicate Contiguous(es: seq<Option<Entry>>, i: nat)
    requires i < |es| && es[i].Some?
  {
    es[i].value.seqNo == i + 1
  }

  predicate Linked(es: seq<Option<Entry>>, i: nat)
    requires i < |es| && es[i].Some?
  {
    es[i].value.prevHash == PrevAt(es, i)
  }

  /** The stored hash is the hash of the stored row. */
  predicate SelfHashed(env: Env, e: Entry) {
    var canonical := Canonicalize(env, e.payload);
    canonical.Some? && e.chainHash == HashChainEntry(env, e.prevHash, e.seqNo, e, canonical.value)
  }

  predicate GoodAt(env: Env, es: seq<Option<Entry>>, i: nat)
    requires i < |es|
  {
    && es[i].Some? && (i > 0 ==> es[i - 1].Some?)
    && Contiguous(es, i) && Linked(es, i) && SelfHashed(env, es[i].value)
  }

  /** A well-formed chain: numbered 1..n, linked from genesis, every hash recomputable. */
  ghost predicate Chain(env: Env, es: seq<Option<Entry>>) {
    forall i: nat :: i < |es| ==> GoodAt(env, es, i)
  }

  ghost predicate FirstBroken(env: Env, es: seq<Option<Entry>>, i: nat) {
    i < |es| && Chain(env, es[..i]) && !GoodAt(env, es, i)
  }

  lemma PrefixGood(env: Env, es: seq<Option<Entry>>, n: nat, i: nat)
    requires i < n <= |es|
    ensures GoodAt(env, es[..n], i) <==> GoodAt(env, es, i)
  {
  }

  lemma ChainPrefix(env: Env, es: seq<Option<Entry>>, n: nat)
    requires n <= |es|
    ensures Chain(env, es[..n]) <==> forall i: nat :: i < n ==> GoodAt(env, es, i)
  {
    forall i: nat | i < n ensures GoodAt(env, es[..n], i) <==> GoodAt(env, es, i) {
      PrefixGood(env, es, n, i);
    }
  }

  /** verifyChainEntries: no error exactly on a well-formed chain; otherwise the first broken position,
      reported as the seq number stored there. So the number is the verdict except for one kind of row: the
      first broken one being nil or stored with seq 0. */
  method VerifyChainEntries(env: Env, es: seq<Option<Entry>>) returns (broken: int, err: Option<VerifyError>)
    ensures err.None? <==> Chain(env, es)
    ensures err.None? ==> broken == 0
    ensures err.Some? ==> FirstBroken(env, es, err.value.position)
    ensures err.Some? ==> var p := err.value.position; broken == 0 <==> es[p].None? || es[p].value.seqNo == 0
    ensures err.Some? ==> var p := err.value.position;
      match err.value
      case NilEntry(_) => es[p].None? && broken == 0
      case NotContiguous(_) => es[p].Some? && !Contiguous(es, p) && broken == es[p].value.seqNo
      case NotLinked(_) => es[p].Some? && Contiguous(es, p) && !Linked(es, p) && broken == p + 1
      case NotCanonical(_) =>
        es[p].Some? && Contiguous(es, p) && Linked(es, p) && es[p].value.payload.Malformed? && broken == p + 1
      case HashMismatch(_) =>
        es[p].Some? && Contiguous(es, p) && Linked(es, p) && !es[p].value.payload.Malformed? && broken == p + 1
  {
    if |es| == 0 {
      return 0, None;
    }
    var prev := Genesis();
    for i := 0 to |es|
      invariant forall k: nat :: k < i ==> GoodAt(env, es, k)
      invariant prev == PrevAt(es, i)
    {
      ChainPrefix(env, es, i);
      assert i > 0 ==> GoodAt(env, es, i - 1);
      if es[i].None? {
        assert !GoodAt(env, es, i);
        return 0, Some(NilEntry(i));
      }
      var e := es[i].value;
      if e.seqNo != i + 1 {
        assert !GoodAt(env, es, i);
        return e.seqNo, Some(NotContiguous(i));
      }
      if e.prevHash != prev {
        assert !GoodAt(env, es, i);
        return e.seqNo, Some(NotLinked(i));
      }
      var canonical := Canonicalize(env, e.payload);
      if canonical.None? {
        assert !GoodAt(env, es, i);
        return e.seqNo, Some(NotCanonical(i));
      }
      if HashChainEntry(env, e.prevHash, e.seqNo, e, canonical.value) != e.chainHash {
        assert !GoodAt(env, es, i);
        return e.seqNo, Some(HashMismatch(i));
      }
      assert GoodAt(env, es, i);
      prev := e.chainHash;
    }
    return 0, None;
  }

  lemma FirstBrokenIsUnique(env: Env, es: seq<Option<Entry>>, i: nat, j: nat)
    requires FirstBroken(env, es, i) && FirstBroken(env, es, j)
    ensures i == j
  {
    ChainPrefix(env, es, i);
    ChainPrefix(env, es, j);
  }

  /** The number alone is not the verdict: a list whose first broken row is stored with seq 0 is reported as 0. */
  method BrokenRowReportedAsZero(env: Env, es: seq<Option<Entry>>, p: nat)
      returns (broken: int, err: Option<VerifyError>)
    requires FirstBroken(env, es, p) && es[p].Some? && es[p].value.seqNo == 0
    ensures broken == 0 && err == Some(NotContiguous(p))
  {
    assert !GoodAt(env, es, p);
    broken, err := VerifyChainEntries(env, es);
    FirstBrokenIsUnique(env, es, p, err.value.position);
  }

  // ------------------------------------------------- what an accepted chain commits to

  /** The fields no caller may fill with the separator. */
  predicate PipeFree(e: Entry) {
    && FieldJoin.Plain(e.tenant) && FieldJoin.Plain(e.actor) && FieldJoin.Plain(e.action)
    && FieldJoin.Plain(e.entityType) && FieldJoin.Plain(e.entityId)
  }

  /** They are the fields 2 to 6 of the hash input. */
  function StringFields(e: Entry): (fields: seq<string>)
    ensures |fields| == 5
  {
    [e.tenant, e.actor, e.action, e.entityType, e.entityId]
  }

  lemma PipeFreeFields(e: Entry)
    ensures FieldJoin.AllPlain(StringFields(e)) <==> PipeFree(e)
  {
    var f := StringFields(e);
    assert FieldJoin.AllPlain(f) ==> FieldJoin.Plain(f[0]) && FieldJoin.Plain(f[1]) && FieldJoin.Plain(f[2])
                                     && FieldJoin.Plain(f[3]) && FieldJoin.Plain(f[4]);
  }

  ghost predicate AllPipeFree(es: seq<Option<Entry>>) {
    forall i :: 0 <= i < |es| && es[i].Some? ==> PipeFree(es[i].value)
  }

  /** The value Go reads: null for no payload, numbers as float64. */
  function Meaning(env: Env, payload: Payload): (v: Value)
    requires !payload.Malformed?
  {
    if payload.Empty? then NullValue else Respell(env.number, Decode(payload.doc))
  }

  /** Equal up to what the hash covers: not the row id, not the severity, the payload
      only up to its JSON value and the time only to the microsecond. */
  predicate SameHashed(env: Env, a: Entry, b: Entry) {
    && a.tenant == b.tenant && a.actor == b.actor && a.action == b.action
    && a.entityType == b.entityType && a.entityId == b.entityId
    && !a.payload.Malformed? && !b.payload.Malformed? && Meaning(env, a.payload) == Meaning(env, b.payload)
    && Truncate(a.created) == Truncate(b.created)
    && a.seqNo == b.seqNo && a.prevHash == b.prevHash && a.chainHash == b.chainHash
  }

  ghost predicate SameHistory(env: Env, a: seq<Option<Entry>>, b: seq<Option<Entry>>) {
    |a| == |b| &&
    forall i :: 0 <= i < |a| ==> a[i].Some? && b[i].Some? && SameHashed(env, a[i].value, b[i].value)
  }

  function InputOf(env: Env, e: Entry): (input: string)
    requires !e.payload.Malformed?
  {
    FieldJoin.Join(HashFields(env, e.prevHash, e.seqNo, e, Canonicalize(env, e.payload).value))
  }

  ghost predicate Collide(env: Env, a: Entry, b: Entry) {
    && !a.payload.Malformed? && !b.payload.Malformed?
    && InputOf(env, a) != InputOf(env, b) && env.sha(InputOf(env, a)) == env.sha(InputOf(env, b))
  }

  /** Two entries equally far from the two heads feed different bytes to SHA-256 and get one digest. */
  ghost predicate CollisionBetween(env: Env, a: seq<Option<Entry>>, b: seq<Option<Entry>>) {
    exists i, j :: 0 <= i < |a| && 0 <= j < |b| && |a| - i == |b| - j && a[i].Some? && b[j].Some?
                   && Collide(env, a[i].value, b[j].value)
  }

  /** s ends in a separator and t. */
  predicate EndsInField(s: string, t: string) {
    |t| < |s| && s[|s| - |t| - 1] == '|' && s[|s| - |t|..] == t
  }

  /** No canonical text ends in a separator and another canonical text. In JSON a separator stands inside a
      string literal, so what follows it has an odd number of unescaped quotes. */
  ghost predicate Unsplittable(env: Env) {
    forall a, b :: !EndsInField(env.text(Canonical(env.number, a)), env.text(Canonical(env.number, b)))
  }

  /** The hash input written out, in the order and with the separators of the field grammar. */
  lemma HashInputText(env: Env, e: Entry)
    requires Lawful(env) && !e.payload.Malformed?
    ensures InputOf(env, e)
         == e.prevHash + "|" + Decimal.Format(e.seqNo) + "|" + e.tenant + "|" + e.actor + "|" + e.action + "|"
            + e.entityType + "|" + e.entityId + "|"
            + env.text(if e.payload.Empty? then Null else Canonical(env.number, e.payload.doc)) + "|"
            + env.stamp(e.created - e.created % 1000)
  {
    JoinNine(FieldsOf(env, e));
    assert Canonical(env.number, Null) == Null;
    hide FieldJoin.Join, Canonical, Decimal.Format;
  }

  lemma JoinNine(f: seq<string>)
    requires |f| == 9
    ensures FieldJoin.Join(f)
         == f[0] + "|" + f[1] + "|" + f[2] + "|" + f[3] + "|" + f[4] + "|" + f[5] + "|" + f[6] + "|" + f[7] + "|" + f[8]
  {
    assert FieldJoin.Join([f[0]]) == f[0];
    hide FieldJoin.Join;
    assert f[..9] == f && f[..1] == [f[0]];
    JoinFrontGrows(f, 1);
    JoinFrontGrows(f, 2);
    JoinFrontGrows(f, 3);
    JoinFrontGrows(f, 4);
    JoinFrontGrows(f, 5);
    JoinFrontGrows(f, 6);
    JoinFrontGrows(f, 7);
    JoinFrontGrows(f, 8);
  }

  lemma JoinFrontGrows(fields: seq<string>, n: nat)
    requires 1 <= n < |fields|
    ensures FieldJoin.Join(fields[..n + 1]) == FieldJoin.Join(fields[..n]) + "|" + fields[n]
  {
    FieldJoin.JoinFromTheEnd(fields[..n + 1]);
    assert fields[..n + 1][..n] == fields[..n];
  }

  lemma HexIsPlain(s: string)
    requires Hex64(s)
    ensures FieldJoin.Plain(s)
  {
  }

  lemma CanonicalBytesDetermineMeaning(env: Env, a: Payload, b: Payload)
    requires Lawful(env) && !a.Malformed? && !b.Malformed?
    ensures Canonicalize(env, a) == Canonicalize(env, b) <==> Meaning(env, a) == Meaning(env, b)
  {
    var da, db := if a.Empty? then Null else a.doc, if b.Empty? then Null else b.doc;
    CanonicalIffSameValue(env.number, da, db);
    assert Canonical(env.number, Null) == Null;
    assert Canonicalize(env, a) == Some(env.text(Canonical(env.number, da)));
    assert Canonicalize(env, b) == Some(env.text(Canonical(env.number, db)));
  }

  /** Both payloads as canonical texts. */
  lemma PayloadTexts(env: Env, payload: Payload) returns (doc: Json)
    requires Lawful(env) && !payload.Malformed?
    ensures Canonicalize(env, payload) == Some(env.text(Canonical(env.number, doc)))
  {
    doc := if payload.Empty? then Null else payload.doc;
    assert Canonical(env.number, Null) == Null;
  }

  lemma ShorterIsTheEnd(x: string, t: string, y: string, u: string)
    requires x + "|" + t == y + "|" + u && |u| < |t|
    ensures EndsInField(t, u)
  {
    var s := x + "|" + t;
    assert t == s[|x| + 1..] && u == s[|y| + 1..] && s[|y|] == '|';
  }

  lemma TextsAlign(x: string, t: string, y: string, u: string)
    requires x + "|" + t == y + "|" + u && !EndsInField(t, u) && !EndsInField(u, t)
    ensures x == y && t == u
  {
    if |u| < |t| {
      ShorterIsTheEnd(x, t, y, u);
    } else if |t| < |u| {
      ShorterIsTheEnd(y, u, x, t);
    } else {
      var s := x + "|" + t;
      assert x == s[..|x|] && y == s[..|y|] && t == s[|x| + 1..] && u == s[|y| + 1..];
    }
  }

  function FieldsOf(env: Env, e: Entry): (fields: seq<string>)
    requires !e.payload.Malformed?
  {
    HashFields(env, e.prevHash, e.seqNo, e, Canonicalize(env, e.payload).value)
  }

  /** Field by field equal: then so is everything the hash covers. */
  lemma SameFieldsSameHashed(env: Env, a: Entry, b: Entry)
    requires Lawful(env) && !a.payload.Malformed? && !b.payload.Malformed? && FieldsOf(env, a) == FieldsOf(env, b)
    ensures a.chainHash == b.chainHash ==> SameHashed(env, a, b)
    ensures a.seqNo == b.seqNo && a.prevHash == b.prevHash
  {
    var fa, fb := FieldsOf(env, a), FieldsOf(env, b);
    assert fa[0] == fb[0] && fa[1] == fb[1] && fa[2] == fb[2] && fa[3] == fb[3] && fa[4] == fb[4];
    assert fa[5] == fb[5] && fa[6] == fb[6] && fa[7] == fb[7] && fa[8] == fb[8];
    Decimal.FormatInjective(a.seqNo, b.seqNo);
    CanonicalBytesDetermineMeaning(env, a.payload, b.payload);
  }

  /** The joined text of an entry without separators outside its payload determines every hashed field, against
      any other entry whatever: cut off the time, then the payload, then count separators. */
  lemma InputDeterminesFields(env: Env, a: Entry, b: Entry)
    requires Lawful(env) && Unsplittable(env) && PipeFree(a) && Hex64(a.prevHash)
    requires !a.payload.Malformed? && !b.payload.Malformed?
    requires InputOf(env, a) == InputOf(env, b)
    ensures a.chainHash == b.chainHash ==> SameHashed(env, a, b)
    ensures a.seqNo == b.seqNo && a.prevHash == b.prevHash
  {
    var fa, fb := FieldsOf(env, a), FieldsOf(env, b);
    FieldJoin.JoinFromTheEnd(fa);
    FieldJoin.JoinFromTheEnd(fb);
    FieldJoin.SplitLast(FieldJoin.Join(fa[..8]), FieldJoin.Join(fb[..8]), fa[8], fb[8]);
    FieldJoin.JoinFromTheEnd(fa[..8]);
    FieldJoin.JoinFromTheEnd(fb[..8]);
    assert fa[..8][..7] == fa[..7] && fb[..8][..7] == fb[..7];
    var da := PayloadTexts(env, a.payload);
    var db := PayloadTexts(env, b.payload);
    TextsAlign(FieldJoin.Join(fa[..7]), fa[7], FieldJoin.Join(fb[..7]), fb[7]);
    HexIsPlain(a.prevHash);
    Decimal.FormatHasNo(a.seqNo, '|');
    PipeFreeFields(a);
    assert fa[..7] == [a.prevHash, Decimal.Format(a.seqNo)] + StringFields(a);
    FieldJoin.PlainListIsDetermined(fa[..7], fb[..7]);
    assert fa == fa[..7] + [fa[7], fa[8]] && fb == fb[..7] + [fb[7], fb[8]];
    SameFieldsSameHashed(env, a, b);
  }

  lemma ChainHashesAreHex(env: Env, es: seq<Option<Entry>>, i: nat)
    requires Lawful(env) && Chain(env, es) && i < |es|
    ensures GoodAt(env, es, i) && Hex64(es[i].value.chainHash) && Hex64(es[i].value.prevHash)
  {
    assert GoodAt(env, es, i);
    if i > 0 {
      assert GoodAt(env, es, i - 1);
    }
  }

  /** One step back: equal inputs at the two heads mean equal fields and equal hashes one row earlier. */
  lemma StepBack(env: Env, a: seq<Option<Entry>>, b: seq<Option<Entry>>)
    requires Lawful(env) && Unsplittable(env) && Chain(env, a) && Chain(env, b) && AllPipeFree(a)
    requires |a| > 0 && |b| > 0 && a[|a| - 1].Some? && b[|b| - 1].Some?
    requires a[|a| - 1].value.chainHash == b[|b| - 1].value.chainHash
    ensures
      || Collide(env, a[|a| - 1].value, b[|b| - 1].value)
      || (&& |a| == |b| && SameHashed(env, a[|a| - 1].value, b[|b| - 1].value)
          && (|a| > 1 ==> a[|a| - 2].Some? && b[|b| - 2].Some?
                          && a[|a| - 2].value.chainHash == b[|b| - 2].value.chainHash))
  {
    var n, m := |a| - 1, |b| - 1;
    ChainHashesAreHex(env, a, n);
    ChainHashesAreHex(env, b, m);
    if InputOf(env, a[n].value) == InputOf(env, b[m].value) {
      InputDeterminesFields(env, a[n].value, b[m].value);
    }
  }

  /** The head hash of a chain without separators outside its payloads commits to the whole history: any other
      accepted chain with that head, whatever its fields hold, is the same history or exhibits a collision. */
  lemma {:induction false} HeadCommitsToHistory(env: Env, a: seq<Option<Entry>>, b: seq<Option<Entry>>)
    requires Lawful(env) && Unsplittable(env) && Chain(env, a) && Chain(env, b) && AllPipeFree(a)
    requires |a| > 0 && |b| > 0
    requires a[|a| - 1].Some? && b[|b| - 1].Some?
    requires a[|a| - 1].value.chainHash == b[|b| - 1].value.chainHash
    ensures SameHistory(env, a, b) || CollisionBetween(env, a, b)
    decreases |a|
  {
    StepBack(env, a, b);
    if !Collide(env, a[|a| - 1].value, b[|b| - 1].value) && |a| > 1 {
      var n := |a| - 1;
      ChainPrefix(env, a, n);
      ChainPrefix(env, b, n);
      HeadCommitsToHistory(env, a[..n], b[..n]);
      ExtendByHead(env, a, b);
    }
  }

  lemma ExtendByHead(env: Env, a: seq<Option<Entry>>, b: seq<Option<Entry>>)
    requires |a| == |b| > 0 && a[|a| - 1].Some? && b[|b| - 1].Some?
    requires SameHashed(env, a[|a| - 1].value, b[|b| - 1].value)
    requires SameHistory(env, a[..|a| - 1], b[..|a| - 1]) || CollisionBetween(env, a[..|a| - 1], b[..|a| - 1])
    ensures SameHistory(env, a, b) || CollisionBetween(env, a, b)
  {
    var n := |a| - 1;
    var c, d := a[..n], b[..n];
    if CollisionBetween(env, c, d) {
      var i, j :| 0 <= i < n && 0 <= j < n && i == j && c[i].Some? && d[j].Some?
                  && Collide(env, c[i].value, d[j].value);
      assert Collide(env, a[i].value, b[j].value);
    } else {
      forall i | 0 <= i < |a| ensures a[i].Some? && b[i].Some? && SameHashed(env, a[i].value, b[i].value) {
        if i < n {
          assert c[i] == a[i] && d[i] == b[i];
        }
      }
    }
  }

  /** Conversely histories that agree on the hashed fields have the same verdict and head:
      severity, row id, payload spelling and sub-microsecond time are not covered. */
  lemma SameHistorySameVerdict(env: Env, a: seq<Option<Entry>>, b: seq<Option<Entry>>)
    requires Lawful(env) && SameHistory(env, a, b)
    ensures Chain(env, a) <==> Chain(env, b)
  {
    forall i: nat | i < |a| ensures GoodAt(env, a, i) <==> GoodAt(env, b, i) {
      var x, y := a[i].value, b[i].value;
      CanonicalBytesDetermineMeaning(env, x.payload, y.payload);
      assert SameHashed(env, x, y);
      assert i > 0 ==> SameHashed(env, a[i - 1].value, b[i - 1].value);
    }
  }

  /** Change the hashed content of one row but keep its stored hash: if the true row has no separator outside
      its payload, the verifier stops at that very row, unless the two contents collide. */
  lemma TamperedRowIsReported(env: Env, es: seq<Option<Entry>>, i: nat, forged: Entry)
    requires Lawful(env) && Unsplittable(env) && Chain(env, es) && i < |es|
    requires GoodAt(env, es, i) && PipeFree(es[i].value) && forged.chainHash == es[i].value.chainHash
    requires !SameHashed(env, es[i].value, forged)
    ensures FirstBroken(env, es[i := Some(forged)], i) || Collide(env, es[i].value, forged)
  {
    var bad := es[i := Some(forged)];
    assert bad[..i] == es[..i];
    ChainPrefix(env, es, i);
    ChainHashesAreHex(env, es, i);
    if GoodAt(env, bad, i) && InputOf(env, es[i].value) == InputOf(env, forged) {
      InputDeterminesFields(env, es[i].value, forged);
    }
  }

  /** Row i can be rewritten under its stored hash, without a collision, and the verifier notices nothing. */
  ghost predicate Forges(env: Env, es: seq<Option<Entry>>, i: nat, forged: Entry)
    requires i < |es| && es[i].Some?
  {
    && forged.chainHash == es[i].value.chainHash && !SameHashed(env, es[i].value, forged)
    && !Collide(env, es[i].value, forged) && Chain(env, es[i := Some(forged)])
  }

  /** A row of an accepted chain can be forged exactly when one of its fields outside the payload holds a
      separator, which the writer can check before the call. */
  lemma ForgeableIffSeparator(env: Env, es: seq<Option<Entry>>, i: nat)
    requires Lawful(env) && Unsplittable(env) && Chain(env, es) && i < |es| && es[i].Some?
    ensures (exists forged :: Forges(env, es, i, forged)) <==> !PipeFree(es[i].value)
  {
    assert GoodAt(env, es, i);
    if PipeFree(es[i].value) {
      forall forged ensures !Forges(env, es, i, forged) {
        if Forges(env, es, i, forged) {
          TamperedRowIsReported(env, es, i, forged);
        }
      }
    } else {
      var forged := Forgery(env, es[i].value);
      SwapUnnoticed(env, es, i, forged);
      assert Forges(env, es, i, forged);
    }
  }

  /** Move the separator inside a field to the next one: other fields, the same bytes. */
  lemma Forgery(env: Env, e: Entry) returns (forged: Entry)
    requires !PipeFree(e) && !e.payload.Malformed?
    ensures forged.chainHash == e.chainHash && forged.prevHash == e.prevHash && forged.seqNo == e.seqNo
    ensures !forged.payload.Malformed? && InputOf(env, forged) == InputOf(env, e) && !SameHashed(env, e, forged)
  {
    var f := StringFields(e);
    PipeFreeFields(e);
    var i :| 0 <= i < 5 && !FieldJoin.Plain(f[i]);
    var g := FieldJoin.Shift(f, i);
    forged := e.(tenant := g[0], actor := g[1], action := g[2], entityType := g[3], entityId := g[4]);
    assert StringFields(forged) == g;
    var front, back := FieldsOf(env, e)[..2], FieldsOf(env, e)[7..];
    assert FieldsOf(env, e) == front + f + back && FieldsOf(env, forged) == front + g + back;
    FieldJoin.JoinMiddle(front, f, g, back);
  }

  lemma SwapUnnoticed(env: Env, es: seq<Option<Entry>>, i: nat, forged: Entry)
    requires Chain(env, es) && i < |es| && GoodAt(env, es, i) && !forged.payload.Malformed?
    requires var e := es[i].value; forged.chainHash == e.chainHash && forged.prevHash == e.prevHash
                                   && forged.seqNo == e.seqNo && InputOf(env, forged) == InputOf(env, e)
    ensures Chain(env, es[i := Some(forged)])
  {
    var bad := es[i := Some(forged)];
    forall k: nat | k < |es| ensures GoodAt(env, bad, k) {
      assert GoodAt(env, es, k);
    }
  }

  ghost predicate SameHead(a: seq<Option<Entry>>, b: seq<Option<Entry>>) {
    && |a| > 0 && |b| > 0 && a[|a| - 1].Some? && b[|b| - 1].Some?
    && a[|a| - 1].value.chainHash == b[|b| - 1].value.chainHash
  }

  /** The head of an accepted chain commits to its whole history exactly when no row of it holds a separator
      outside its payload. */
  lemma HeadCommitsIff(env: Env, a: seq<Option<Entry>>)
    requires Lawful(env) && Unsplittable(env) && Chain(env, a) && a != []
    ensures (forall b :: Chain(env, b) && SameHead(a, b) ==> SameHistory(env, a, b) || CollisionBetween(env, a, b))
       <==> AllPipeFree(a)
  {
    if AllPipeFree(a) {
      forall b | Chain(env, b) && SameHead(a, b) ensures SameHistory(env, a, b) || CollisionBetween(env, a, b) {
        HeadCommitsToHistory(env, a, b);
      }
    } else {
      var i: nat :| i < |a| && a[i].Some? && !PipeFree(a[i].value);
      assert GoodAt(env, a, i) && GoodAt(env, a, |a| - 1);
      var forged := Forgery(env, a[i].value);
      var b := a[i := Some(forged)];
      SwapUnnoticed(env, a, i, forged);
      assert SameHead(a, b);
      assert b[i] == Some(forged);
      assert !SameHistory(env, a, b);
      assert !CollisionBetween(env, a, b);
    }
  }

  /** The smallest such case: these two rows differ in two hashed fields and give SHA-256 the very same bytes. */
  lemma PipesBreakTheCommitment(env: Env, prev: string, e: Entry)
    requires !e.payload.Malformed?
    ensures var a := e.(action := "login|x", entityType := "y");
            var b := e.(action := "login", entityType := "x|y");
      !SameHashed(env, a, b) && InputOf(env, a) == InputOf(env, b)
  {
    var a := e.(action := "login|x", entityType := "y");
    var b := e.(action := "login", entityType := "x|y");
    var front, back := FieldsOf(env, e)[..4], FieldsOf(env, e)[6..];
    assert FieldsOf(env, a) == front + ["login|x", "y"] + back && FieldsOf(env, b) == front + ["login", "x|y"] + back;
    FieldJoin.JoinPair("login|x", "y");
    FieldJoin.JoinPair("login", "x|y");
    FieldJoin.JoinMiddle(front, ["login|x", "y"], ["login", "x|y"], back);
  }
}
