/** Values, per-block records and the failures of the reward pipeline.

    A block record is a Python dict. Its insertion order decides the layout of
    the exported tables, so it is modelled as its key sequence, in insertion
    order, together with the map from each key to its value. */
module Records {

  /** Scale between the smallest currency unit and the display unit. */
  const MULTIPLIER: int := 100000000

  datatype Option<+T> = None | Some(value: T)

  /** The values a record can hold: JSON numbers and strings, the nested list
      of reward entries, and Python's None. */
  datatype Value =
    | Int(i: int)
    | Real(x: real)
    | Str(s: string)
    | List(entries: seq<Record>)
    | Null

  /** A dict: `keys` is `dict.keys()` in insertion order, `vals` maps each key
      to its value. */
  datatype Record = Record(keys: seq<string>, vals: map<string, Value>)

  /** The exceptions the pipeline lets escape, and the explicit exit. */
  datatype Error =
    | KeyError(key: string)
    | IndexError
    | TypeError
    | ValueError
    | SyntaxError
    | Exit(code: int)

  datatype Result<+T> = Ok(value: T) | Err(error: Error)

  /** Whether a statement sequence ran to its end or raised. */
  datatype Outcome = Done | Raised(error: Error)

  /** What every Python dict satisfies: no key is listed twice, and the listed
      keys are exactly the keys that have a value. */
  ghost predicate IsDict(rec: Record) {
    && (forall j, k :: 0 <= j < k < |rec.keys| ==> rec.keys[j] != rec.keys[k])
    && (forall key :: key in rec.vals <==> key in rec.keys)
  }

  /** `rec[key]`, or None when the key is absent. */
  function Get(rec: Record, key: string): Option<Value> {
    if key in rec.vals then Some(rec.vals[key]) else None
  }

  /** `rec[key] = v`: an existing key keeps its position, a new key goes last. */
  function Set(rec: Record, key: string, v: Value): (r: Record)
    ensures Get(r, key) == Some(v)
    ensures forall k :: k != key ==> Get(r, k) == Get(rec, k)
  {
    Record(if key in rec.vals then rec.keys else rec.keys + [key], rec.vals[key := v])
  }

  /** The key order after assigning `key`: unchanged when the key is listed,
      with the key appended otherwise. */
  function WithKey(keys: seq<string>, key: string): seq<string> {
    if key in keys then keys else keys + [key]
  }

  /** In a dict, a key has a value exactly when it is among the listed keys. */
  lemma GetIffKey(rec: Record, key: string)
    requires IsDict(rec)
    ensures Get(rec, key).Some? <==> key in rec.keys
  {
  }

  /** Assigning a key keeps the record a dict, keeps the key order when the
      key was listed and appends it otherwise. */
  lemma SetKeepsDict(rec: Record, key: string, v: Value)
    requires IsDict(rec)
    ensures IsDict(Set(rec, key, v))
    ensures Set(rec, key, v).keys == WithKey(rec.keys, key)
  {
    var r := Set(rec, key, v);
    if key !in rec.keys {
      forall j, k | 0 <= j < k < |r.keys| ensures r.keys[j] != r.keys[k] {
        if k == |rec.keys| {
          assert r.keys[j] == rec.keys[j];
        } else {
          assert r.keys[j] == rec.keys[j] && r.keys[k] == rec.keys[k];
        }
      }
    }
  }

  /** Assigning the same value to the same key twice is assigning it once. */
  lemma SetTwice(rec: Record, key: string, v: Value)
    ensures Set(Set(rec, key, v), key, v) == Set(rec, key, v)
  {
    assert Set(rec, key, v).vals[key := v] == Set(rec, key, v).vals;
  }

  /** Python's `float(v)`; the parse of text is supplied as `parseFloat`. */
  function ToFloat(v: Value, parseFloat: string -> Option<real>): (r: Result<real>)
    ensures v.Int? ==> r == Ok(v.i as real)
    ensures v.Real? ==> r == Ok(v.x)
    ensures v.Str? ==> r == if parseFloat(v.s).Some? then Ok(parseFloat(v.s).value) else Err(ValueError)
    ensures (v.List? || v.Null?) ==> r == Err(TypeError)
  {
    match v
    case Int(i) => Ok(i as real)
    case Real(x) => Ok(x)
    case Str(s) => (match parseFloat(s) case Some(x) => Ok(x) case None => Err(ValueError))
    case _ => Err(TypeError)
  }

  /** The operand of `/` and `*`: only numbers; text, lists and None raise TypeError. */
  function Numeric(v: Value): (r: Result<real>)
    ensures r.Ok? <==> (v.Int? || v.Real?)
    ensures r.Err? ==> r.error == TypeError
  {
    match v
    case Int(i) => Ok(i as real)
    case Real(x) => Ok(x)
    case _ => Err(TypeError)
  }

  /** Python's `int(x)` on a float: truncation toward zero. */
  function Trunc(x: real): (n: int)
    ensures 0.0 <= x ==> 0 <= n && n as real <= x < n as real + 1.0
    ensures x < 0.0 ==> n <= 0 && n as real - 1.0 < x <= n as real
  {
    if x >= 0.0 then x.Floor else -((-x).Floor)
  }

  /** An integer converted to float truncates back to itself. */
  lemma TruncOfInt(v: Value)
    ensures v.Int? ==> Trunc(v.i as real) == v.i
  {
  }

  /** The characters `str.strip()` removes. */
  predicate IsSpace(c: char) {
    || c == ' ' || c == '\t' || c == '\n' || c == '\r'
    || c == '\U{B}' || c == '\U{C}'
    || ('\U{1C}' <= c <= '\U{1F}')
    || c == '\U{85}' || c == '\U{A0}' || c == '\U{1680}'
    || ('\U{2000}' <= c <= '\U{200A}')
    || c == '\U{2028}' || c == '\U{2029}' || c == '\U{202F}' || c == '\U{205F}' || c == '\U{3000}'
  }

  /** `s.strip() == ""`. */
  predicate IsBlank(s: string) {
    forall j :: 0 <= j < |s| ==> IsSpace(s[j])
  }

  /** `t` occurs in `s` starting at position `i`. */
  predicate OccursAt(s: string, t: string, i: int) {
    0 <= i && i + |t| <= |s| && s[i..i + |t|] == t
  }

  /** Python's `t in s` on strings. */
  predicate Contains(s: string, t: string)
    decreases |s|
  {
    |t| <= |s| && (s[..|t|] == t || Contains(s[1..], t))
  }

  /** `t in s` holds exactly when `t` occurs in `s` at some position. */
  lemma {:induction false} ContainsIffOccurs(s: string, t: string)
    ensures Contains(s, t) <==> exists i :: OccursAt(s, t, i)
    decreases |s|
  {
    if |t| <= |s| && s[..|t|] == t {
      assert OccursAt(s, t, 0);
    } else if |t| <= |s| {
      ContainsIffOccurs(s[1..], t);
      if exists i :: OccursAt(s, t, i) {
        var i :| OccursAt(s, t, i);
        assert i != 0;
        assert s[1..][i - 1..i - 1 + |t|] == s[i..i + |t|];
        assert OccursAt(s[1..], t, i - 1);
      }
      if Contains(s[1..], t) {
        var i :| OccursAt(s[1..], t, i);
        assert s[i + 1..i + 1 + |t|] == s[1..][i..i + |t|];
        assert OccursAt(s, t, i + 1);
      }
    }
  }
}
