/** Record values on their three paths: the canonical form behind the content hash,
    the MessagePack record file, and the JSON write-ahead log. Values are trees; the
    byte encodings below them are not modelled. */
module Codec {
  import opened Prelude

  /** A dictionary key; only text keys have a canonical form. */
  datatype Key = Text(text: string) | Number(value: int)

  /** A value as the caller holds it. A float is its 64-bit pattern, and a dictionary
      keeps its insertion order. */
  datatype Py =
    | PyNone
    | PyBool(bool)
    | PyInt(int)
    | PyFloat(bits: nat)
    | PyText(text: string)
    | PyBytes(bytes: seq<nat>)
    | PyList(items: seq<Py>)
    | PyTuple(items: seq<Py>)
    | PyDict(entries: seq<(Key, Py)>)

  /** JSON, where an object is a map and so has no order. */
  datatype Json =
    | Null
    | Bool(bool)
    | Int(int)
    | Float(bits: nat)
    | Str(text: string)
    | Array(items: seq<Json>)
    | Object(fields: map<string, Json>)

  datatype Msg =
    | Nil
    | Boolean(bool)
    | Integer(int)
    | F64(bits: nat)
    | String(text: string)
    | Binary(bytes: seq<nat>)
    | Sequence(items: seq<Msg>)
    | Map(entries: seq<(Msg, Msg)>)

  type Base64 = seq<nat> -> string
  type Reading = nat -> nat

  /** Neither a NaN nor an infinity: the exponent bits are not all set. */
  predicate Finite(bits: nat) {
    (bits / 0x10_0000_0000_0000) % 0x800 != 0x7FF
  }

  /** The integers an i64 or a u64 can hold. */
  predicate Fits(i: int) {
    -0x8000_0000_0000_0000 <= i < 0x1_0000_0000_0000_0000
  }

  /** Insert in order; a later field of the same name wins. */
  function Collect<V>(pairs: seq<(string, V)>): map<string, V> {
    if |pairs| == 0 then map[]
    else Collect(pairs[..|pairs| - 1])[pairs[|pairs| - 1].0 := pairs[|pairs| - 1].1]
  }

  // ---- canonical form, native and fallback

  function Canonical(b64: Base64, v: Py): Option<Json> {
    match v
    case PyNone => Some(Null)
    case PyBool(b) => Some(Bool(b))
    case PyInt(i) => if Fits(i) then Some(Int(i)) else None
    case PyFloat(f) => if Finite(f) then Some(Float(f)) else None
    case PyText(t) => Some(Str(t))
    case PyBytes(b) => Some(Object(map["$bytes" := Str(b64(b))]))
    case PyList(xs) =>
      if forall i :: 0 <= i < |xs| ==> Canonical(b64, xs[i]).Some?
      then Some(Array(seq(|xs|, i requires 0 <= i < |xs| => Canonical(b64, xs[i]).value))) else None
    case PyTuple(xs) =>
      if forall i :: 0 <= i < |xs| ==> Canonical(b64, xs[i]).Some?
      then Some(Array(seq(|xs|, i requires 0 <= i < |xs| => Canonical(b64, xs[i]).value))) else None
    case PyDict(es) =>
      if forall i :: 0 <= i < |es| ==> es[i].0.Text? && Canonical(b64, es[i].1).Some?
      then Some(Object(Collect(seq(|es|, i requires 0 <= i < |es| => (es[i].0.text, Canonical(b64, es[i].1).value)))))
      else None
  }

  /** The fallback has no integer range. */
  function Normalize(b64: Base64, v: Py): Option<Json> {
    match v
    case PyNone => Some(Null)
    case PyBool(b) => Some(Bool(b))
    case PyText(t) => Some(Str(t))
    case PyInt(i) => Some(Int(i))
    case PyFloat(f) => if !Finite(f) then None else Some(Float(f))
    case PyBytes(b) => Some(Object(map["$bytes" := Str(b64(b))]))
    case PyList(xs) =>
      if exists i :: 0 <= i < |xs| && Normalize(b64, xs[i]).None? then None
      else Some(Array(seq(|xs|, i requires 0 <= i < |xs| => Normalize(b64, xs[i]).value)))
    case PyTuple(xs) =>
      if exists i :: 0 <= i < |xs| && Normalize(b64, xs[i]).None? then None
      else Some(Array(seq(|xs|, i requires 0 <= i < |xs| => Normalize(b64, xs[i]).value)))
    case PyDict(es) =>
      if exists i :: 0 <= i < |es| && !es[i].0.Text? then None
      else if exists i :: 0 <= i < |es| && Normalize(b64, es[i].1).None? then None
      else Some(Object(Collect(seq(|es|, i requires 0 <= i < |es| => (es[i].0.text, Normalize(b64, es[i].1).value)))))
  }

  predicate IntsFit(v: Py) {
    match v
    case PyInt(i) => Fits(i)
    case PyList(xs) => forall i :: 0 <= i < |xs| ==> IntsFit(xs[i])
    case PyTuple(xs) => forall i :: 0 <= i < |xs| ==> IntsFit(xs[i])
    case PyDict(es) => forall i :: 0 <= i < |es| ==> IntsFit(es[i].1)
    case _ => true
  }

  predicate NoBytes(v: Py) {
    match v
    case PyBytes(_) => false
    case PyList(xs) => forall i :: 0 <= i < |xs| ==> NoBytes(xs[i])
    case PyTuple(xs) => forall i :: 0 <= i < |xs| ==> NoBytes(xs[i])
    case PyDict(es) => forall i :: 0 <= i < |es| ==> NoBytes(es[i].1)
    case _ => true
  }

  function CanonicalItems(b64: Base64, xs: seq<Py>): seq<Json>
    requires forall i :: 0 <= i < |xs| ==> Canonical(b64, xs[i]).Some?
  {
    seq(|xs|, i requires 0 <= i < |xs| => Canonical(b64, xs[i]).value)
  }

  function CanonicalFields(b64: Base64, es: seq<(Key, Py)>): (fields: seq<(string, Json)>)
    requires forall i :: 0 <= i < |es| ==> es[i].0.Text? && Canonical(b64, es[i].1).Some?
    ensures |fields| == |es|
    ensures forall i :: 0 <= i < |es| ==> fields[i] == (es[i].0.text, Canonical(b64, es[i].1).value)
  {
    seq(|es|, i requires 0 <= i < |es| => (es[i].0.text, Canonical(b64, es[i].1).value))
  }

  /** The two backends give one form, except that the native one refuses integers
      outside the 64-bit range. */
  lemma {:induction false} BackendsAgree(b64: Base64, v: Py)
    ensures Canonical(b64, v) == if IntsFit(v) then Normalize(b64, v) else None
  {
    match v {
      case PyList(xs) =>
        forall i | 0 <= i < |xs| { BackendsAgree(b64, xs[i]); }
        if Canonical(b64, v).Some? {
          assert Canonical(b64, v).value.items == Normalize(b64, v).value.items;
        }
      case PyTuple(xs) =>
        forall i | 0 <= i < |xs| { BackendsAgree(b64, xs[i]); }
        if Canonical(b64, v).Some? {
          assert Canonical(b64, v).value.items == Normalize(b64, v).value.items;
        }
      case PyDict(es) =>
        forall i | 0 <= i < |es| { BackendsAgree(b64, es[i].1); }
        if Canonical(b64, v).Some? {
          assert CanonicalFields(b64, es)
              == seq(|es|, i requires 0 <= i < |es| => (es[i].0.text, Normalize(b64, es[i].1).value));
        }
      case _ =>
    }
  }

  /** No float is a NaN or an infinity, and every dictionary key is text. */
  predicate Plain(v: Py) {
    match v
    case PyFloat(f) => Finite(f)
    case PyList(xs) => forall i :: 0 <= i < |xs| ==> Plain(xs[i])
    case PyTuple(xs) => forall i :: 0 <= i < |xs| ==> Plain(xs[i])
    case PyDict(es) => forall i :: 0 <= i < |es| ==> es[i].0.Text? && Plain(es[i].1)
    case _ => true
  }

  /** A value can be sealed exactly when it is plain all the way down, and natively also only
      when its integers fit. */
  lemma {:induction false} SealableIff(b64: Base64, v: Py)
    ensures Normalize(b64, v).Some? <==> Plain(v)
    ensures Canonical(b64, v).Some? <==> Plain(v) && IntsFit(v)
  {
    BackendsAgree(b64, v);
    hide Canonical;
    match v {
      case PyList(xs) => forall i | 0 <= i < |xs| { SealableIff(b64, xs[i]); }
      case PyTuple(xs) => forall i | 0 <= i < |xs| { SealableIff(b64, xs[i]); }
      case PyDict(es) => forall i | 0 <= i < |es| { SealableIff(b64, es[i].1); }
      case _ =>
    }
  }

  // ---- the record file

  function KeyToMsg(k: Key): Option<Msg> {
    match k
    case Text(t) => Some(String(t))
    case Number(n) => if Fits(n) then Some(Integer(n)) else None
  }

  function ToMsgpack(v: Py): Option<Msg> {
    match v
    case PyNone => Some(Nil)
    case PyBool(b) => Some(Boolean(b))
    case PyBytes(b) => Some(Binary(b))
    case PyText(t) => Some(String(t))
    case PyInt(i) => if Fits(i) then Some(Integer(i)) else None
    case PyFloat(f) => Some(F64(f))
    case PyList(xs) =>
      if forall i :: 0 <= i < |xs| ==> ToMsgpack(xs[i]).Some?
      then Some(Sequence(seq(|xs|, i requires 0 <= i < |xs| => ToMsgpack(xs[i]).value))) else None
    case PyTuple(xs) =>
      if forall i :: 0 <= i < |xs| ==> ToMsgpack(xs[i]).Some?
      then Some(Sequence(seq(|xs|, i requires 0 <= i < |xs| => ToMsgpack(xs[i]).value))) else None
    case PyDict(es) =>
      if forall i :: 0 <= i < |es| ==> KeyToMsg(es[i].0).Some? && ToMsgpack(es[i].1).Some?
      then Some(Map(seq(|es|, i requires 0 <= i < |es| => (KeyToMsg(es[i].0).value, ToMsgpack(es[i].1).value))))
      else None
  }

  /** Keys of the other kinds a dictionary cannot hash, or no record has. */
  function MsgToKey(m: Msg): Option<Key> {
    match m
    case String(t) => Some(Text(t))
    case Integer(n) => Some(Number(n))
    case _ => None
  }

  function KeyIndex(es: seq<(Key, Py)>, k: Key): (i: Option<nat>)
    ensures i.Some? ==> i.value < |es| && es[i.value].0 == k
    ensures i.None? ==> forall j :: 0 <= j < |es| ==> es[j].0 != k
  {
    if |es| == 0 then None
    else if es[|es| - 1].0 == k then Some(|es| - 1)
    else KeyIndex(es[..|es| - 1], k)
  }

  /** `d[k] = v` keeps the place of a key that is there already. */
  function SetItem(es: seq<(Key, Py)>, k: Key, v: Py): seq<(Key, Py)> {
    var i := KeyIndex(es, k);
    if i.Some? then es[i.value := (k, v)] else es + [(k, v)]
  }

  function Build(pairs: seq<(Key, Py)>): seq<(Key, Py)> {
    if |pairs| == 0 then []
    else SetItem(Build(pairs[..|pairs| - 1]), pairs[|pairs| - 1].0, pairs[|pairs| - 1].1)
  }

  function ToPython(m: Msg): Option<Py> {
    match m
    case Nil => Some(PyNone)
    case Boolean(b) => Some(PyBool(b))
    case Integer(i) => if Fits(i) then Some(PyInt(i)) else None
    case F64(f) => Some(PyFloat(f))
    case String(t) => Some(PyText(t))
    case Binary(b) => Some(PyBytes(b))
    case Sequence(xs) =>
      if forall i :: 0 <= i < |xs| ==> ToPython(xs[i]).Some?
      then Some(PyList(seq(|xs|, i requires 0 <= i < |xs| => ToPython(xs[i]).value))) else None
    case Map(es) =>
      if forall i :: 0 <= i < |es| ==> MsgToKey(es[i].0).Some? && ToPython(es[i].1).Some?
      then Some(PyDict(Build(seq(|es|,
                                 i requires 0 <= i < |es| => (MsgToKey(es[i].0).value, ToPython(es[i].1).value)))))
      else None
  }

  predicate DistinctKeys<K(==), V>(es: seq<(K, V)>) {
    forall i, j :: 0 <= i < j < |es| ==> es[i].0 != es[j].0
  }

  lemma {:induction false} CollectHas<V>(pairs: seq<(string, V)>)
    ensures forall k :: k in Collect(pairs) <==> exists i :: 0 <= i < |pairs| && pairs[i].0 == k
  {
    if |pairs| > 0 {
      CollectHas(pairs[..|pairs| - 1]);
    }
  }

  lemma {:induction false} CollectUpdate<V>(pairs: seq<(string, V)>, i: nat, x: V)
    requires DistinctKeys(pairs) && i < |pairs|
    ensures Collect(pairs[i := (pairs[i].0, x)]) == Collect(pairs)[pairs[i].0 := x]
  {
    var n := |pairs| - 1;
    var now := pairs[i := (pairs[i].0, x)];
    if i < n {
      CollectUpdate(pairs[..n], i, x);
      assert now[..n] == pairs[..n][i := (pairs[i].0, x)];
    } else {
      assert now[..n] == pairs[..n];
    }
  }

  /** A dictionary built item by item has distinct keys and the same canonical form as
      its items in order. */
  lemma {:induction false} BuildKeepsFields(b64: Base64, pairs: seq<(Key, Py)>)
    requires forall i :: 0 <= i < |pairs| ==> pairs[i].0.Text? && Canonical(b64, pairs[i].1).Some?
    ensures var es := Build(pairs);
            && DistinctKeys(es)
            && (forall i :: 0 <= i < |es| ==> es[i].0.Text? && Canonical(b64, es[i].1).Some?)
            && Collect(CanonicalFields(b64, es)) == Collect(CanonicalFields(b64, pairs))
  {
    if |pairs| > 0 {
      var init, k, v := pairs[..|pairs| - 1], pairs[|pairs| - 1].0, pairs[|pairs| - 1].1;
      BuildKeepsFields(b64, init);
      var es := Build(init);
      SetItemKeepsFields(b64, es, k, v);
      assert CanonicalFields(b64, pairs)[..|pairs| - 1] == CanonicalFields(b64, init);
    }
  }

  lemma CollectAppend<V>(pairs: seq<(string, V)>, last: (string, V))
    ensures Collect(pairs + [last]) == Collect(pairs)[last.0 := last.1]
  {
    assert (pairs + [last])[..|pairs|] == pairs;
  }

  lemma SetItemKeepsDistinct(es: seq<(Key, Py)>, k: Key, v: Py)
    requires DistinctKeys(es)
    ensures DistinctKeys(SetItem(es, k, v))
    ensures forall e :: e in SetItem(es, k, v) ==> e in es || e == (k, v)
  {
  }

  lemma SetItemFields(b64: Base64, es: seq<(Key, Py)>, k: Key, v: Py)
    requires forall i :: 0 <= i < |es| ==> es[i].0.Text? && Canonical(b64, es[i].1).Some?
    requires k.Text? && Canonical(b64, v).Some?
    ensures var now, i, pair := SetItem(es, k, v), KeyIndex(es, k), (k.text, Canonical(b64, v).value);
            && (forall j :: 0 <= j < |now| ==> now[j].0.Text? && Canonical(b64, now[j].1).Some?)
            && CanonicalFields(b64, now) == (if i.Some? then CanonicalFields(b64, es)[i.value := pair]
                                             else CanonicalFields(b64, es) + [pair])
  {
    hide Canonical;
  }

  lemma SetItemKeepsFields(b64: Base64, es: seq<(Key, Py)>, k: Key, v: Py)
    requires forall i :: 0 <= i < |es| ==> es[i].0.Text? && Canonical(b64, es[i].1).Some?
    requires DistinctKeys(es) && k.Text? && Canonical(b64, v).Some?
    ensures var now := SetItem(es, k, v);
            && DistinctKeys(now)
            && (forall i :: 0 <= i < |now| ==> now[i].0.Text? && Canonical(b64, now[i].1).Some?)
            && Collect(CanonicalFields(b64, now))
            == Collect(CanonicalFields(b64, es))[k.text := Canonical(b64, v).value]
  {
    SetItemKeepsDistinct(es, k, v);
    SetItemFields(b64, es, k, v);
    var fields, pair, i := CanonicalFields(b64, es), (k.text, Canonical(b64, v).value), KeyIndex(es, k);
    assert DistinctKeys(fields);
    hide Canonical, Collect, SetItem, CanonicalFields;
    if i.Some? {
      CollectUpdate(fields, i.value, pair.1);
    } else {
      CollectAppend(fields, pair);
    }
  }

  /** The record file gives back the canonical form. */
  ghost predicate FileKeeps(b64: Base64, v: Py) {
    Canonical(b64, v).Some? ==>
      && ToMsgpack(v).Some?
      && ToPython(ToMsgpack(v).value).Some?
      && Canonical(b64, ToPython(ToMsgpack(v).value).value) == Canonical(b64, v)
  }

  lemma ItemsKept(b64: Base64, xs: seq<Py>)
    requires forall i :: 0 <= i < |xs| ==> FileKeeps(b64, xs[i])
    ensures FileKeeps(b64, PyList(xs)) && FileKeeps(b64, PyTuple(xs))
  {
    if Canonical(b64, PyList(xs)).Some? {
      assert forall i :: 0 <= i < |xs| ==> Canonical(b64, xs[i]).Some? && FileKeeps(b64, xs[i]);
      var out := seq(|xs|, i requires 0 <= i < |xs| => ToMsgpack(xs[i]).value);
      assert ToMsgpack(PyList(xs)) == ToMsgpack(PyTuple(xs)) == Some(Sequence(out));
      var back := seq(|out|, i requires 0 <= i < |out| => ToPython(out[i]).value);
      assert ToPython(Sequence(out)) == Some(PyList(back));
      assert CanonicalItems(b64, back) == CanonicalItems(b64, xs);
    }
  }

  lemma EntriesEncode(es: seq<(Key, Py)>) returns (out: seq<(Msg, Msg)>)
    requires forall i :: 0 <= i < |es| ==> es[i].0.Text? && ToMsgpack(es[i].1).Some?
    ensures |out| == |es| && ToMsgpack(PyDict(es)) == Some(Map(out))
    ensures forall i :: 0 <= i < |es| ==> out[i] == (KeyToMsg(es[i].0).value, ToMsgpack(es[i].1).value)
  {
    out := seq(|es|, i requires 0 <= i < |es| => (KeyToMsg(es[i].0).value, ToMsgpack(es[i].1).value));
  }

  lemma EntriesKept(b64: Base64, es: seq<(Key, Py)>)
    requires forall i :: 0 <= i < |es| ==> FileKeeps(b64, es[i].1)
    ensures FileKeeps(b64, PyDict(es))
  {
    if Canonical(b64, PyDict(es)).Some? {
      assert forall i :: 0 <= i < |es| ==> es[i].0.Text? && Canonical(b64, es[i].1).Some? && FileKeeps(b64, es[i].1);
      hide Canonical, Build, ToMsgpack;
      var out := EntriesEncode(es);
      var back := DecodeEntries(out);
      BackIsSame(b64, es, back);
    }
  }

  lemma DictForm(b64: Base64, es: seq<(Key, Py)>)
    requires forall i :: 0 <= i < |es| ==> es[i].0.Text? && Canonical(b64, es[i].1).Some?
    ensures Canonical(b64, PyDict(es)) == Some(Object(Collect(CanonicalFields(b64, es))))
  {
  }

  lemma BackIsSame(b64: Base64, es: seq<(Key, Py)>, back: seq<(Key, Py)>)
    requires |back| == |es|
    requires forall i :: 0 <= i < |es| ==> es[i].0.Text? && Canonical(b64, es[i].1).Some?
    requires forall i :: 0 <= i < |es| ==> back[i].0 == es[i].0 && Canonical(b64, back[i].1) == Canonical(b64, es[i].1)
    ensures Canonical(b64, PyDict(Build(back))) == Canonical(b64, PyDict(es))
  {
    BuildKeepsFields(b64, back);
    DictForm(b64, es);
    DictForm(b64, Build(back));
    hide Canonical, Collect, Build;
    assert CanonicalFields(b64, back) == CanonicalFields(b64, es);
  }

  /** A sealed record written to its file and decoded again has the canonical form it
      was sealed with. */
  lemma {:induction false} FileKeepsCanonical(b64: Base64, v: Py)
    ensures FileKeeps(b64, v)
  {
    match v {
      case PyList(xs) =>
        forall i | 0 <= i < |xs| ensures FileKeeps(b64, xs[i]) { FileKeepsCanonical(b64, xs[i]); }
        ItemsKept(b64, xs);
      case PyTuple(xs) =>
        forall i | 0 <= i < |xs| ensures FileKeeps(b64, xs[i]) { FileKeepsCanonical(b64, xs[i]); }
        ItemsKept(b64, xs);
      case PyDict(es) =>
        forall i | 0 <= i < |es| ensures FileKeeps(b64, es[i].1) { FileKeepsCanonical(b64, es[i].1); }
        EntriesKept(b64, es);
      case _ =>
    }
  }

  // ---- the write-ahead log

  /** The tree of the JSON text that Python writes; bytes have none. */
  function Dumped(v: Py): Option<Json> {
    match v
    case PyNone => Some(Null)
    case PyBool(b) => Some(Bool(b))
    case PyInt(i) => Some(Int(i))
    case PyFloat(f) => Some(Float(f))
    case PyText(t) => Some(Str(t))
    case PyBytes(_) => None
    case PyList(xs) =>
      if forall i :: 0 <= i < |xs| ==> Dumped(xs[i]).Some?
      then Some(Array(seq(|xs|, i requires 0 <= i < |xs| => Dumped(xs[i]).value))) else None
    case PyTuple(xs) =>
      if forall i :: 0 <= i < |xs| ==> Dumped(xs[i]).Some?
      then Some(Array(seq(|xs|, i requires 0 <= i < |xs| => Dumped(xs[i]).value))) else None
    case PyDict(es) =>
      if forall i :: 0 <= i < |es| ==> es[i].0.Text? && Dumped(es[i].1).Some?
      then Some(Object(Collect(seq(|es|, i requires 0 <= i < |es| => (es[i].0.text, Dumped(es[i].1).value)))))
      else None
  }

  /** What a parser makes of JSON text: floats may change in the last place, and one
      that leaves the finite range is an error. Integers past 64 bits would come back
      as floats; no sealed record holds one, so they are an error here. */
  function Reread(j: Json, reading: Reading): (r: Option<Json>)
    ensures r.Some? ==> Sound(r.value)
  {
    match j
    case Int(i) => if Fits(i) then Some(j) else None
    case Float(f) => if Finite(reading(f)) then Some(Float(reading(f))) else None
    case Array(xs) =>
      if forall i :: 0 <= i < |xs| ==> Reread(xs[i], reading).Some?
      then Some(Array(seq(|xs|, i requires 0 <= i < |xs| => Reread(xs[i], reading).value))) else None
    case Object(m) =>
      if forall k :: k in m ==> Reread(m[k], reading).Some?
      then Some(Object(map k | k in m :: Reread(m[k], reading).value)) else None
    case _ => Some(j)
  }

  /** The values serde_json can hold: 64-bit integers and finite floats. */
  predicate Sound(j: Json) {
    match j
    case Int(i) => Fits(i)
    case Float(f) => Finite(f)
    case Array(xs) => forall i :: 0 <= i < |xs| ==> Sound(xs[i])
    case Object(m) => forall k :: k in m ==> Sound(m[k])
    case _ => true
  }

  /** Some order of the names of an object. */
  ghost function Names(names: set<string>): seq<string> {
    if names == {} then [] else var n :| n in names; [n] + Names(names - {n})
  }

  lemma {:induction false} NamesAreAll(names: set<string>)
    ensures forall n :: n in Names(names) <==> n in names
    ensures Distinct(Names(names))
  {
    if names != {} {
      var n := Names(names)[0];
      assert Names(names) == [n] + Names(names - {n});
      NamesAreAll(names - {n});
    }
  }

  ghost function JsonToMsgpack(j: Json): Msg
    requires Sound(j)
  {
    match j
    case Null => Nil
    case Bool(b) => Boolean(b)
    case Int(i) => Integer(i)
    case Float(f) => F64(f)
    case Str(t) => String(t)
    case Array(xs) => Sequence(seq(|xs|, i requires 0 <= i < |xs| => JsonToMsgpack(xs[i])))
    case Object(m) =>
      NamesAreAll(m.Keys);
      var names := Names(m.Keys);
      Map(seq(|names|, i requires 0 <= i < |names| => (String(names[i]), JsonToMsgpack(m[names[i]]))))
  }

  lemma {:induction false} CollectAll(pairs: seq<(string, Json)>, m: map<string, Json>)
    requires forall i :: 0 <= i < |pairs| ==> pairs[i].0 in m && pairs[i].1 == m[pairs[i].0]
    requires forall k :: k in m ==> exists i :: 0 <= i < |pairs| && pairs[i].0 == k
    ensures Collect(pairs) == m
  {
    CollectHas(pairs);
    CollectFrom(pairs, m);
  }

  lemma {:induction false} CollectFrom(pairs: seq<(string, Json)>, m: map<string, Json>)
    requires forall i :: 0 <= i < |pairs| ==> pairs[i].0 in m && pairs[i].1 == m[pairs[i].0]
    ensures forall k :: k in Collect(pairs) ==> k in m && Collect(pairs)[k] == m[k]
  {
    if |pairs| > 0 {
      CollectFrom(pairs[..|pairs| - 1], m);
    }
  }

  /** JSON turned into a record file and decoded has itself as its canonical form. */
  ghost predicate JsonKeeps(b64: Base64, j: Json)
    requires Sound(j)
  {
    ToPython(JsonToMsgpack(j)).Some? && Canonical(b64, ToPython(JsonToMsgpack(j)).value) == Some(j)
  }

  lemma ArrayKept(b64: Base64, xs: seq<Json>)
    requires forall i :: 0 <= i < |xs| ==> Sound(xs[i]) && JsonKeeps(b64, xs[i])
    ensures JsonKeeps(b64, Array(xs))
  {
    var out := JsonToMsgpack(Array(xs)).items;
    assert forall i :: 0 <= i < |xs| ==> out[i] == JsonToMsgpack(xs[i]);
    var back := seq(|out|, i requires 0 <= i < |out| => ToPython(out[i]).value);
    assert ToPython(Sequence(out)) == Some(PyList(back));
    assert CanonicalItems(b64, back) == xs;
  }

  lemma ObjectKept(b64: Base64, m: map<string, Json>)
    requires forall k :: k in m ==> Sound(m[k]) && JsonKeeps(b64, m[k])
    ensures JsonKeeps(b64, Object(m))
  {
    var names := Names(m.Keys);
    NamesAreAll(m.Keys);
    hide Names, Canonical, Build;
    var out := JsonToMsgpack(Object(m)).entries;
    forall i | 0 <= i < |out|
      ensures names[i] in m && out[i] == (String(names[i]), JsonToMsgpack(m[names[i]])) && JsonKeeps(b64, m[names[i]])
    {
      assert names[i] in names;
    }
    var back := DecodeEntries(out);
    hide JsonToMsgpack;
    ObjectIsBack(b64, m, names, back);
  }

  lemma DecodeEntries(out: seq<(Msg, Msg)>) returns (back: seq<(Key, Py)>)
    requires forall i :: 0 <= i < |out| ==> MsgToKey(out[i].0).Some? && ToPython(out[i].1).Some?
    ensures |back| == |out| && ToPython(Map(out)) == Some(PyDict(Build(back)))
    ensures forall i :: 0 <= i < |out| ==> back[i] == (MsgToKey(out[i].0).value, ToPython(out[i].1).value)
  {
    back := seq(|out|, i requires 0 <= i < |out| => (MsgToKey(out[i].0).value, ToPython(out[i].1).value));
  }

  lemma ObjectIsBack(b64: Base64, m: map<string, Json>, names: seq<string>, back: seq<(Key, Py)>)
    requires |back| == |names| && forall k :: k in m <==> k in names
    requires forall i :: 0 <= i < |names| ==>
               back[i].0 == Text(names[i]) && Canonical(b64, back[i].1) == Some(m[names[i]])
    ensures Canonical(b64, PyDict(Build(back))) == Some(Object(m))
  {
    BuildKeepsFields(b64, back);
    DictForm(b64, Build(back));
    var fields := CanonicalFields(b64, back);
    forall k | k in m ensures exists i :: 0 <= i < |fields| && fields[i].0 == k {
      var i :| 0 <= i < |names| && names[i] == k;
      assert fields[i].0 == k;
    }
    CollectAll(fields, m);
  }

  lemma {:induction false} RecoveredFileIsJson(b64: Base64, j: Json)
    requires Sound(j)
    ensures JsonKeeps(b64, j)
  {
    match j {
      case Array(xs) =>
        forall i | 0 <= i < |xs| ensures JsonKeeps(b64, xs[i]) { RecoveredFileIsJson(b64, xs[i]); }
        ArrayKept(b64, xs);
      case Object(m) =>
        forall k | k in m ensures JsonKeeps(b64, m[k]) { RecoveredFileIsJson(b64, m[k]); }
        ObjectKept(b64, m);
      case _ =>
    }
  }

  /** What a record replayed from the log reads back as: dumped by Python, parsed
      when it is logged, parsed again when it is recovered, written as MessagePack
      and decoded. */
  ghost function Replayed(first: Reading, second: Reading, v: Py): Option<Py> {
    match Dumped(v)
    case None => None
    case Some(text) =>
      match Reread(text, first)
      case None => None
      case Some(logged) =>
        match Reread(logged, second)
        case None => None
        case Some(read) => ToPython(JsonToMsgpack(read))
  }

  /** Every float comes out of the two readings as it went in. */
  predicate FloatsSurvive(first: Reading, second: Reading, j: Json) {
    match j
    case Float(f) => Finite(first(f)) && second(first(f)) == f
    case Array(xs) => forall i :: 0 <= i < |xs| ==> FloatsSurvive(first, second, xs[i])
    case Object(m) => forall k :: k in m ==> FloatsSurvive(first, second, m[k])
    case _ => true
  }

  /** Without bytes the text holds the canonical tree; with bytes there is no text. */
  ghost predicate DumpFits(b64: Base64, v: Py) {
    Canonical(b64, v).Some? ==>
      Sound(Canonical(b64, v).value) && Dumped(v) == if NoBytes(v) then Canonical(b64, v) else None
  }

  lemma ItemsDump(b64: Base64, xs: seq<Py>)
    requires forall i :: 0 <= i < |xs| ==> DumpFits(b64, xs[i])
    ensures DumpFits(b64, PyList(xs)) && DumpFits(b64, PyTuple(xs))
  {
    if Canonical(b64, PyList(xs)).Some? {
      assert forall i :: 0 <= i < |xs| ==> Canonical(b64, xs[i]).Some? && DumpFits(b64, xs[i]);
      assert Canonical(b64, PyList(xs)) == Canonical(b64, PyTuple(xs)) == Some(Array(CanonicalItems(b64, xs)));
      if NoBytes(PyList(xs)) {
        assert Dumped(PyList(xs)).value.items == CanonicalItems(b64, xs);
        assert Dumped(PyTuple(xs)).value.items == CanonicalItems(b64, xs);
      }
    }
  }

  lemma {:induction false} CollectValues<V(!new)>(pairs: seq<(string, V)>)
    ensures forall k :: k in Collect(pairs) ==> exists i :: 0 <= i < |pairs| && pairs[i].1 == Collect(pairs)[k]
  {
    if |pairs| > 0 {
      CollectValues(pairs[..|pairs| - 1]);
    }
  }

  lemma EntriesDump(b64: Base64, es: seq<(Key, Py)>)
    requires forall i :: 0 <= i < |es| ==> DumpFits(b64, es[i].1)
    ensures DumpFits(b64, PyDict(es))
  {
    if Canonical(b64, PyDict(es)).Some? {
      assert forall i :: 0 <= i < |es| ==> es[i].0.Text? && Canonical(b64, es[i].1).Some? && DumpFits(b64, es[i].1);
      var fields := CanonicalFields(b64, es);
      assert Canonical(b64, PyDict(es)) == Some(Object(Collect(fields)));
      CollectValues(fields);
      if NoBytes(PyDict(es)) {
        assert fields == seq(|es|, i requires 0 <= i < |es| => (es[i].0.text, Dumped(es[i].1).value));
      }
    }
  }

  lemma {:induction false} DumpIsCanonical(b64: Base64, v: Py)
    ensures DumpFits(b64, v)
  {
    match v {
      case PyList(xs) =>
        forall i | 0 <= i < |xs| ensures DumpFits(b64, xs[i]) { DumpIsCanonical(b64, xs[i]); }
        ItemsDump(b64, xs);
      case PyTuple(xs) =>
        forall i | 0 <= i < |xs| ensures DumpFits(b64, xs[i]) { DumpIsCanonical(b64, xs[i]); }
        ItemsDump(b64, xs);
      case PyDict(es) =>
        forall i | 0 <= i < |es| ensures DumpFits(b64, es[i].1) { DumpIsCanonical(b64, es[i].1); }
        EntriesDump(b64, es);
      case _ =>
    }
  }

  ghost function RereadTwice(first: Reading, second: Reading, j: Json): Option<Json> {
    var once := Reread(j, first);
    if once.None? then None else Reread(once.value, second)
  }

  lemma TwiceItemsIff(first: Reading, second: Reading, xs: seq<Json>)
    requires forall i :: 0 <= i < |xs| ==>
               (RereadTwice(first, second, xs[i]) == Some(xs[i]) <==> FloatsSurvive(first, second, xs[i]))
    ensures RereadTwice(first, second, Array(xs)) == Some(Array(xs)) <==> FloatsSurvive(first, second, Array(xs))
  {
    var once := Reread(Array(xs), first);
    if once.Some? {
      assert forall i :: 0 <= i < |xs| ==> once.value.items[i] == Reread(xs[i], first).value;
      var twice := Reread(once.value, second);
      if twice.Some? {
        assert forall i :: 0 <= i < |xs| ==> twice.value.items[i] == RereadTwice(first, second, xs[i]).value;
        if FloatsSurvive(first, second, Array(xs)) {
          assert twice.value.items == xs;
        }
      }
    }
  }

  lemma TwiceFieldsIff(first: Reading, second: Reading, m: map<string, Json>)
    requires forall k :: k in m ==>
               (RereadTwice(first, second, m[k]) == Some(m[k]) <==> FloatsSurvive(first, second, m[k]))
    ensures RereadTwice(first, second, Object(m)) == Some(Object(m)) <==> FloatsSurvive(first, second, Object(m))
  {
    var once := Reread(Object(m), first);
    if once.Some? {
      assert forall k :: k in m ==> once.value.fields[k] == Reread(m[k], first).value;
      var twice := Reread(once.value, second);
      if twice.Some? {
        assert forall k :: k in m ==> twice.value.fields[k] == RereadTwice(first, second, m[k]).value;
        if FloatsSurvive(first, second, Object(m)) {
          assert twice.value.fields == m;
        }
      }
    }
  }

  lemma {:induction false} TwiceIff(first: Reading, second: Reading, j: Json)
    requires Sound(j)
    ensures RereadTwice(first, second, j) == Some(j) <==> FloatsSurvive(first, second, j)
  {
    match j {
      case Array(xs) =>
        forall i | 0 <= i < |xs| { TwiceIff(first, second, xs[i]); }
        TwiceItemsIff(first, second, xs);
      case Object(m) =>
        forall k | k in m { TwiceIff(first, second, m[k]); }
        TwiceFieldsIff(first, second, m);
      case _ =>
    }
  }

  /** A sealed record replayed from the log has the form it was sealed with exactly
      when it holds no bytes and its floats survive being read twice. */
  lemma ReplayKeepsCanonicalIff(b64: Base64, first: Reading, second: Reading, v: Py)
    requires Canonical(b64, v).Some?
    ensures (Replayed(first, second, v).Some? && Canonical(b64, Replayed(first, second, v).value) == Canonical(b64, v))
       <==> (NoBytes(v) && FloatsSurvive(first, second, Canonical(b64, v).value))
  {
    var sealed := Canonical(b64, v).value;
    DumpIsCanonical(b64, v);
    if NoBytes(v) {
      TwiceIff(first, second, sealed);
      var read := RereadTwice(first, second, sealed);
      if read.Some? {
        RecoveredFileIsJson(b64, read.value);
      }
    }
  }

  /** With exact float reading, bytes are the only way not to survive the log. */
  lemma ExactReadingKeepsCanonical(b64: Base64, first: Reading, second: Reading, v: Py)
    requires forall f :: Finite(f) ==> first(f) == f && second(f) == f
    requires Canonical(b64, v).Some?
    ensures NoBytes(v) <==>
            Replayed(first, second, v).Some? && Canonical(b64, Replayed(first, second, v).value) == Canonical(b64, v)
  {
    DumpIsCanonical(b64, v);
    ExactFloatsSurvive(first, second, Canonical(b64, v).value);
    ReplayKeepsCanonicalIff(b64, first, second, v);
  }

  lemma {:induction false} ExactFloatsSurvive(first: Reading, second: Reading, j: Json)
    requires (forall f :: Finite(f) ==> first(f) == f && second(f) == f) && Sound(j)
    ensures FloatsSurvive(first, second, j)
  {
    match j {
      case Array(xs) => forall i | 0 <= i < |xs| { ExactFloatsSurvive(first, second, xs[i]); }
      case Object(m) => forall k | k in m { ExactFloatsSurvive(first, second, m[k]); }
      case _ =>
    }
  }

  // ---- what the canonical form tells apart

  /** Equal up to the order of keys and the choice of list or tuple. */
  ghost predicate Same(a: Py, b: Py) {
    match a
    case PyList(xs) => SameItems(xs, b)
    case PyTuple(xs) => SameItems(xs, b)
    case PyDict(es) =>
      && b.PyDict?
      && (forall i :: 0 <= i < |es| ==> HasKey(b.entries, es[i].0))
      && (forall j :: 0 <= j < |b.entries| ==> HasKey(es, b.entries[j].0))
      && (forall i, j :: 0 <= i < |es| && 0 <= j < |b.entries| && es[i].0 == b.entries[j].0 ==>
            Same(es[i].1, b.entries[j].1))
    case _ => a == b
  }

  ghost predicate HasKey(es: seq<(Key, Py)>, k: Key) {
    exists i :: 0 <= i < |es| && es[i].0 == k
  }

  ghost predicate SameItems(xs: seq<Py>, b: Py) {
    && (b.PyList? || b.PyTuple?)
    && |b.items| == |xs|
    && forall i :: 0 <= i < |xs| ==> Same(xs[i], b.items[i])
  }

  /** Python's dictionaries have distinct keys, at every depth. */
  predicate RealDicts(v: Py) {
    match v
    case PyList(xs) => forall i :: 0 <= i < |xs| ==> RealDicts(xs[i])
    case PyTuple(xs) => forall i :: 0 <= i < |xs| ==> RealDicts(xs[i])
    case PyDict(es) => DistinctKeys(es) && forall i :: 0 <= i < |es| ==> RealDicts(es[i].1)
    case _ => true
  }

  lemma {:induction false} CollectAt<V>(pairs: seq<(string, V)>, i: nat)
    requires DistinctKeys(pairs) && i < |pairs|
    ensures pairs[i].0 in Collect(pairs) && Collect(pairs)[pairs[i].0] == pairs[i].1
  {
    if i < |pairs| - 1 {
      CollectAt(pairs[..|pairs| - 1], i);
    }
  }

  /** Among sealable values without bytes, one canonical form means one content. */
  ghost predicate Tells(b64: Base64, a: Py, b: Py) {
    Canonical(b64, a).Some? && Canonical(b64, b).Some? && NoBytes(a) && NoBytes(b) && RealDicts(a) && RealDicts(b) ==>
      (Canonical(b64, a) == Canonical(b64, b) <==> Same(a, b))
  }

  lemma ItemsTell(b64: Base64, xs: seq<Py>, b: Py)
    requires b.PyList? || b.PyTuple?
    requires forall i :: 0 <= i < |xs| && i < |b.items| ==> Tells(b64, xs[i], b.items[i])
    ensures Tells(b64, PyList(xs), b) && Tells(b64, PyTuple(xs), b)
  {
    if Canonical(b64, PyList(xs)).Some? && Canonical(b64, b).Some? {
      var mine, theirs := CanonicalItems(b64, xs), CanonicalItems(b64, b.items);
      assert Canonical(b64, PyList(xs)) == Canonical(b64, PyTuple(xs)) == Some(Array(mine));
      assert Canonical(b64, b) == Some(Array(theirs));
      if SameItems(xs, b) && NoBytes(PyList(xs)) && NoBytes(b) && RealDicts(PyList(xs)) && RealDicts(b) {
        assert mine == theirs;
      }
      if mine == theirs && NoBytes(PyList(xs)) && NoBytes(b) && RealDicts(PyList(xs)) && RealDicts(b) {
        forall i | 0 <= i < |xs| ensures Same(xs[i], b.items[i]) {
          assert mine[i] == theirs[i] && Tells(b64, xs[i], b.items[i]);
        }
      }
    }
  }

  /** `m` holds the canonical forms of the entries and nothing else. */
  ghost predicate Holds(b64: Base64, es: seq<(Key, Py)>, m: map<string, Json>) {
    && (forall i :: 0 <= i < |es| ==>
          es[i].0.Text? && es[i].0.text in m && Canonical(b64, es[i].1) == Some(m[es[i].0.text]))
    && (forall k :: k in m ==> HasKey(es, Text(k)))
  }

  lemma FieldsHold(b64: Base64, es: seq<(Key, Py)>)
    requires Canonical(b64, PyDict(es)).Some? && DistinctKeys(es)
    ensures Canonical(b64, PyDict(es)).value.Object? && Holds(b64, es, Canonical(b64, PyDict(es)).value.fields)
  {
    var fields := CanonicalFields(b64, es);
    DictForm(b64, es);
    hide Canonical;
    CollectHas(fields);
    forall i | 0 <= i < |es|
      ensures es[i].0.text in Collect(fields) && Canonical(b64, es[i].1) == Some(Collect(fields)[es[i].0.text])
    {
      CollectAt(fields, i);
    }
    forall k | k in Collect(fields) ensures HasKey(es, Text(k)) {
      var i :| 0 <= i < |fields| && fields[i].0 == k;
      assert es[i].0 == Text(k);
    }
  }

  lemma SameFields(b64: Base64, es: seq<(Key, Py)>, fs: seq<(Key, Py)>, m: map<string, Json>, n: map<string, Json>)
    requires Holds(b64, es, m) && Holds(b64, fs, n)
    requires forall i, j :: 0 <= i < |es| && 0 <= j < |fs| && es[i].0 == fs[j].0 ==>
               (Canonical(b64, es[i].1) == Canonical(b64, fs[j].1) <==> Same(es[i].1, fs[j].1))
    ensures m == n <==> Same(PyDict(es), PyDict(fs))
  {
    hide Canonical;
    if m == n {
      EqualFieldsAreSame(b64, es, fs, m);
    }
    if Same(PyDict(es), PyDict(fs)) {
      FieldsWithin(b64, es, fs, m, n);
      assert forall i, j :: 0 <= i < |fs| && 0 <= j < |es| && fs[i].0 == es[j].0 ==>
          Canonical(b64, fs[i].1) == Canonical(b64, es[j].1);
      FieldsWithin(b64, fs, es, n, m);
    }
  }

  lemma EqualFieldsAreSame(b64: Base64, es: seq<(Key, Py)>, fs: seq<(Key, Py)>, m: map<string, Json>)
    requires Holds(b64, es, m) && Holds(b64, fs, m)
    requires forall i, j :: 0 <= i < |es| && 0 <= j < |fs| && es[i].0 == fs[j].0 ==>
               (Canonical(b64, es[i].1) == Canonical(b64, fs[j].1) <==> Same(es[i].1, fs[j].1))
    ensures Same(PyDict(es), PyDict(fs))
  {
    hide Canonical;
    forall i | 0 <= i < |es| ensures HasKey(fs, es[i].0) {
      assert es[i].0 == Text(es[i].0.text);
    }
    forall j | 0 <= j < |fs| ensures HasKey(es, fs[j].0) {
      assert fs[j].0 == Text(fs[j].0.text);
    }
  }

  lemma FieldsWithin(b64: Base64, es: seq<(Key, Py)>, fs: seq<(Key, Py)>, m: map<string, Json>, n: map<string, Json>)
    requires Holds(b64, es, m) && Holds(b64, fs, n)
    requires forall i :: 0 <= i < |es| ==> HasKey(fs, es[i].0)
    requires forall i, j :: 0 <= i < |es| && 0 <= j < |fs| && es[i].0 == fs[j].0 ==>
               Canonical(b64, es[i].1) == Canonical(b64, fs[j].1)
    ensures forall k :: k in m ==> k in n && m[k] == n[k]
  {
    hide Canonical, Same;
    forall k | k in m ensures k in n && m[k] == n[k] {
      assert HasKey(es, Text(k));
      var i :| 0 <= i < |es| && es[i].0 == Text(k);
      assert HasKey(fs, es[i].0);
      var j :| 0 <= j < |fs| && fs[j].0 == es[i].0;
      assert Canonical(b64, es[i].1) == Canonical(b64, fs[j].1);
    }
  }

  lemma EntriesTell(b64: Base64, es: seq<(Key, Py)>, fs: seq<(Key, Py)>)
    requires forall i, j :: 0 <= i < |es| && 0 <= j < |fs| ==> Tells(b64, es[i].1, fs[j].1)
    ensures Tells(b64, PyDict(es), PyDict(fs))
  {
    var a, b := PyDict(es), PyDict(fs);
    if Canonical(b64, a).Some? && Canonical(b64, b).Some? && NoBytes(a) && NoBytes(b) && RealDicts(a) && RealDicts(b) {
      FieldsHold(b64, es);
      FieldsHold(b64, fs);
      forall i, j | 0 <= i < |es| && 0 <= j < |fs| && es[i].0 == fs[j].0
        ensures Canonical(b64, es[i].1) == Canonical(b64, fs[j].1) <==> Same(es[i].1, fs[j].1)
      {
        assert Tells(b64, es[i].1, fs[j].1);
      }
      hide Same, RealDicts, NoBytes;
      SameFields(b64, es, fs, Canonical(b64, a).value.fields, Canonical(b64, b).value.fields);
    }
  }

  lemma {:induction false} CanonicalTells(b64: Base64, a: Py, b: Py)
    ensures Tells(b64, a, b)
  {
    match a {
      case PyList(xs) =>
        if b.PyList? || b.PyTuple? {
          forall i | 0 <= i < |xs| && i < |b.items| ensures Tells(b64, xs[i], b.items[i]) {
            CanonicalTells(b64, xs[i], b.items[i]);
          }
          ItemsTell(b64, xs, b);
        }
      case PyTuple(xs) =>
        if b.PyList? || b.PyTuple? {
          forall i | 0 <= i < |xs| && i < |b.items| ensures Tells(b64, xs[i], b.items[i]) {
            CanonicalTells(b64, xs[i], b.items[i]);
          }
          ItemsTell(b64, xs, b);
        }
      case PyDict(es) =>
        if b.PyDict? {
          forall i, j | 0 <= i < |es| && 0 <= j < |b.entries| ensures Tells(b64, es[i].1, b.entries[j].1) {
            CanonicalTells(b64, es[i].1, b.entries[j].1);
          }
          EntriesTell(b64, es, b.entries);
        }
      case _ =>
    }
  }

  /** The content hash of sealable values without bytes depends on nothing but the
      content, and on all of it: neither the order of keys nor list against tuple
      changes the form, and any other difference does. */
  lemma OneFormOneContent(b64: Base64, a: Py, b: Py)
    requires Canonical(b64, a).Some? && Canonical(b64, b).Some?
    requires NoBytes(a) && NoBytes(b) && RealDicts(a) && RealDicts(b)
    ensures Canonical(b64, a) == Canonical(b64, b) <==> Same(a, b)
  {
    CanonicalTells(b64, a, b);
  }

  /** With bytes it does not: a byte string has the form of a dictionary. */
  lemma BytesLookLikeADict(b64: Base64, bytes: seq<nat>)
    ensures var dict := PyDict([(Text("$bytes"), PyText(b64(bytes)))]);
            Canonical(b64, PyBytes(bytes)) == Canonical(b64, dict) && !Same(PyBytes(bytes), dict)
  {
    var es := [(Text("$bytes"), PyText(b64(bytes)))];
    var fields := [("$bytes", Str(b64(bytes)))];
    assert CanonicalFields(b64, es) == fields;
    assert fields[..0] == [];
    DictForm(b64, es);
  }
}
