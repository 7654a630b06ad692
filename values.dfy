/** JavaScript values as the dashboard handles them: the untyped `values`
    objects that forms hand to their submit handlers, the records posted to
    the server, and the rendering of a value inside a template literal. */
module JsValues {

  datatype Option<+T> = None | Some(value: T)

  /** How evaluating a JavaScript expression or statement ends: with a value,
      or by throwing a TypeError. */
  datatype Completion<+T> = Normal(value: T) | TypeError

  /** The properties every plain object `{}` inherits from
      `Object.prototype`; each of them reads as a function, except
      `__proto__`, which reads as the prototype object itself. */
  const InheritedProperties: set<string> := {
    "constructor", "hasOwnProperty", "isPrototypeOf", "propertyIsEnumerable",
    "toLocaleString", "toString", "valueOf", "__defineGetter__",
    "__defineSetter__", "__lookupGetter__", "__lookupSetter__", "__proto__"}

  /** An opaque handle to a file the browser gave the upload widget. */
  datatype FileObj = FileObj(handle: nat)

  /** One entry of an upload widget's file list. `originFileObj` is absent
      for entries that do not wrap a local file. */
  datatype UploadFile = UploadFile(uid: string, name: string, originFileObj: Option<FileObj>)

  /** The JavaScript values that occur in this program. A record (plain
      object) maps property names to values; a file list is an array of
      upload entries. */
  datatype Value =
    | Undefined
    | Num(n: int)
    | Str(s: string)
    | Files(files: seq<UploadFile>)
    | Record(fields: map<string, Value>)

  /** A plain object, by its own enumerable properties. */
  type Obj = map<string, Value>

  /** Property access `o[k]`: `undefined` when the property is missing. */
  function Get(o: Obj, k: string): (v: Value)
    ensures k !in o ==> v == Undefined
    ensures k in o ==> v == o[k]
  {
    if k in o then o[k] else Undefined
  }

  /** The object spread `{...a, ...b}`: every property of `b`, and every
      property of `a` that `b` does not have. */
  function Spread(a: Obj, b: Obj): (r: Obj)
    ensures r.Keys == a.Keys + b.Keys
    ensures forall k :: k in b ==> r[k] == b[k]
    ensures forall k :: k in a && k !in b ==> r[k] == a[k]
  {
    a + b
  }

  /** The properties that `JSON.stringify` writes out: it skips those whose
      value is `undefined`. */
  function Jsonable(o: Obj): (r: Obj)
    ensures r.Keys <= o.Keys
    ensures forall k :: k in r ==> r[k] == o[k] && r[k] != Undefined
    ensures forall k :: k in o && o[k] != Undefined ==> k in r
  {
    map k | k in o && o[k] != Undefined :: o[k]
  }

  /** An object with no `undefined` property serialises with every
      property it has. */
  lemma JsonableKeepsDefined(o: Obj)
    requires forall k :: k in o ==> o[k] != Undefined
    ensures Jsonable(o) == o
  {
    assert Jsonable(o).Keys == o.Keys;
  }

  // ---------------------------------------------------------------------
  // Decimal rendering of numbers, as a template literal `${n}` does it

  function DigitChar(d: nat): (c: char)
    requires d < 10
    ensures '0' <= c <= '9'
  {
    "0123456789"[d]
  }

  function DigitValue(c: char): (d: nat)
    requires '0' <= c <= '9'
    ensures d < 10 && DigitChar(d) == c
  {
    (c as int - '0' as int)
  }

  predicate IsDigits(s: string) {
    forall i :: 0 <= i < |s| ==> '0' <= s[i] <= '9'
  }

  /** The shortest decimal representation of `n`. */
  function NatToString(n: nat): (s: string)
    ensures |s| > 0 && IsDigits(s)
    ensures |s| > 1 ==> s[0] != '0'
    decreases n
  {
    if n < 10 then [DigitChar(n)] else NatToString(n / 10) + [DigitChar(n % 10)]
  }

  /** `${n}` for an integer `n`. */
  function IntToString(n: int): (s: string)
    ensures |s| > 0
  {
    if n < 0 then "-" + NatToString(-n) else NatToString(n)
  }

  /** The value of a non-empty string of decimal digits. */
  function DigitsValue(s: string): (n: nat)
    requires |s| > 0 && IsDigits(s)
  {
    if |s| == 1 then DigitValue(s[0])
    else DigitsValue(s[..|s| - 1]) * 10 + DigitValue(s[|s| - 1])
  }

  /** Reads back a natural number written as by `NatToString`: at least one
      digit, no leading zero. */
  function ParseNat(s: string): (r: Option<nat>)
    ensures r.Some? ==> |s| > 0
  {
    if |s| > 0 && IsDigits(s) && (|s| > 1 ==> s[0] != '0') then Some(DigitsValue(s)) else None
  }

  /** Reads back an id rendered by `IntToString`: an optional minus sign
      in front of a non-zero natural number. */
  function ParseInt(s: string): (r: Option<int>)
    ensures r.Some? ==> |s| > 0
  {
    if |s| > 0 && s[0] == '-' then
      match ParseNat(s[1..])
      case Some(m) => if m == 0 then None else Some(-(m as int))
      case None => None
    else
      match ParseNat(s)
      case Some(m) => Some(m as int)
      case None => None
  }

  lemma {:induction false} DigitsValueOfNatToString(n: nat)
    ensures DigitsValue(NatToString(n)) == n
    decreases n
  {
    if n >= 10 {
      var q, r := n / 10, n % 10;
      var p := NatToString(q);
      var s := p + [DigitChar(r)];
      assert NatToString(n) == s;
      assert s[..|s| - 1] == p && s[|s| - 1] == DigitChar(r);
      DigitsValueOfNatToString(q);
      assert DigitsValue(s) == DigitsValue(p) * 10 + DigitValue(DigitChar(r));
      assert DigitValue(DigitChar(r)) == r;
      assert q * 10 + r == n;
    } else {
      assert NatToString(n) == [DigitChar(n)];
    }
  }

  lemma NatToStringRoundTrip(n: nat)
    ensures ParseNat(NatToString(n)) == Some(n)
  {
    DigitsValueOfNatToString(n);
  }

  /** Rendering then reading back an id gives the id: distinct ids give
      distinct request paths. */
  lemma IntToStringRoundTrip(n: int)
    ensures ParseInt(IntToString(n)) == Some(n)
  {
    if n < 0 {
      NegativeRoundTrip(n);
    } else {
      NonNegativeRoundTrip(n);
    }
  }

  lemma NegativeRoundTrip(n: int)
    requires n < 0
    ensures ParseInt(IntToString(n)) == Some(n)
  {
    var m: nat := -n;
    var t := NatToString(m);
    NatToStringRoundTrip(m);
    var s := "-" + t;
    assert s[0] == '-';
    assert s[1..] == t;
    assert ParseNat(s[1..]) == Some(m);
    assert ParseInt(s) == Some(-(m as int));
    assert IntToString(n) == s;
  }

  lemma NonNegativeRoundTrip(n: nat)
    ensures ParseInt(IntToString(n)) == Some(n)
  {
    var t := NatToString(n);
    assert IntToString(n) == t;
    assert t[0] != '-';
    NatToStringRoundTrip(n);
  }

  lemma IntToStringInjective(a: int, b: int)
    ensures IntToString(a) == IntToString(b) <==> a == b
  {
    IntToStringRoundTrip(a);
    IntToStringRoundTrip(b);
  }

  /** What `String(undefined)` gives, and what `FormData.append` stores for
      `undefined`. */
  const UndefinedText: string := "undefined"

  /** `String(v)`, which a template literal `${v}` inserts: an array is
      joined with commas, a plain object prints as `[object Object]`. */
  function Render(v: Value): (s: string)
    ensures v.Num? ==> ParseInt(s) == Some(v.n)
    ensures v == Undefined ==> s == UndefinedText
  {
    match v
    case Undefined => UndefinedText
    case Num(n) => IntToStringRoundTrip(n); IntToString(n)
    case Str(t) => t
    case Files(fs) => JoinObjects(|fs|)
    case Record(_) => "[object Object]"
  }

  /** `String([o1, ..., on])` for `n` plain objects. */
  function JoinObjects(n: nat): string {
    if n == 0 then "" else if n == 1 then "[object Object]"
    else JoinObjects(n - 1) + ",[object Object]"
  }
}
