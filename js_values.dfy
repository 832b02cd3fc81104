/** The JavaScript values the request handlers inspect, with the coercions the
    handlers rely on: truthiness, `String(v)`, `parseInt(v, 10)`, `trim()` and
    strict equality. Numbers are integers; fractional numbers are not modelled. */
module JsValues {
  import opened Strings

  datatype Option<T> = None | Some(value: T)

  /** A value as it arrives in a parsed JSON body, a header or a decoded token.
      `Arr` and `Obj` stand for freshly parsed arrays and objects. */
  datatype JsValue =
    | Undefined
    | Null
    | Bool(b: bool)
    | Num(n: int)
    | NaN
    | Str(s: string)
    | Arr(items: seq<JsValue>)
    | Obj(props: map<string, JsValue>)

  /** JavaScript truthiness: `!v` is `!Truthy(v)`. */
  predicate Truthy(v: JsValue) {
    match v
    case Undefined => false
    case Null => false
    case Bool(b) => b
    case Num(n) => n != 0
    case NaN => false
    case Str(s) => s != ""
    case Arr(_) => true
    case Obj(_) => true
  }

  function IntToString(n: int): (s: string)
    ensures |s| >= 1
  {
    if n < 0 then "-" + NatToString(-n) else NatToString(n)
  }

  /** `String(v)`: an array joins its elements with commas, writing `null`
      and `undefined` elements as empty strings. */
  function ToStr(v: JsValue): string
    decreases v
  {
    match v
    case Undefined => "undefined"
    case Null => "null"
    case Bool(b) => if b then "true" else "false"
    case Num(n) => IntToString(n)
    case NaN => "NaN"
    case Str(s) => s
    case Arr(items) =>
      var parts := seq(|items|, i requires 0 <= i < |items| =>
        if items[i].Undefined? || items[i].Null? then "" else ToStr(items[i]));
      if |parts| == 0 then "" else Join(parts, ',')
    case Obj(_) => "[object Object]"
  }

  /** Destructuring or reading a property throws a TypeError on these two. */
  predicate Readable(v: JsValue) {
    !v.Undefined? && !v.Null?
  }

  /** `v.key` on a readable value: absent properties read as `undefined`. */
  function Get(v: JsValue, key: string): JsValue
    requires Readable(v)
  {
    if v.Obj? && key in v.props then v.props[key] else Undefined
  }

  /** `String(v)` (and a template literal `${v}`) returns instead of throwing.
      Converting an object looks up its `toString`; an own `toString`
      property of a parsed object is data, not a function, so the
      conversion falls back to `valueOf`, which gives the object back, and
      a TypeError is thrown. An array converts each element that is neither
      `null` nor `undefined`. */
  predicate Stringable(v: JsValue)
    decreases v
  {
    match v
    case Obj(props) => "toString" !in props
    case Arr(items) => forall i :: 0 <= i < |items| ==> Stringable(items[i])
    case _ => true
  }

  /** An own `toString` key makes the conversion throw, also inside an
      array; an own `valueOf` key does not, and `null` and `undefined`
      elements never do. */
  lemma OwnToStringThrows(n: int)
    ensures !Stringable(Obj(map["toString" := Num(n)]))
    ensures !Stringable(Arr([Null, Obj(map["toString" := Num(n)])]))
    ensures Stringable(Arr([Null, Undefined, Obj(map["valueOf" := Num(n)])]))
    ensures ToStr(Obj(map["valueOf" := Num(n)])) == "[object Object]"
  {
    var bad := Obj(map["toString" := Num(n)]);
    assert Arr([Null, bad]).items[1] == bad;
  }

  /** Every element passes `p`: `for (... of items)` runs to the end when
      `p` says an element neither throws nor stops the loop. */
  predicate Every(items: seq<JsValue>, p: JsValue -> bool) {
    forall i :: 0 <= i < |items| ==> p(items[i])
  }

  lemma EveryCons(items: seq<JsValue>, p: JsValue -> bool)
    requires |items| > 0
    ensures Every(items, p) <==> p(items[0]) && Every(items[1..], p)
  {
    if p(items[0]) && Every(items[1..], p) {
      forall i | 0 <= i < |items| ensures p(items[i]) {
        if i > 0 { assert items[i] == items[1..][i - 1]; }
      }
    }
    if Every(items, p) {
      forall i | 0 <= i < |items[1..]| ensures p(items[1..][i]) { assert items[1..][i] == items[i + 1]; }
    }
  }

  lemma EverySnoc(items: seq<JsValue>, x: JsValue, p: JsValue -> bool)
    requires Every(items, p) && p(x)
    ensures Every(items + [x], p)
  {
    forall i | 0 <= i < |items + [x]| ensures p((items + [x])[i]) {
      if i < |items| { assert (items + [x])[i] == items[i]; }
    }
  }

  /** `a === b` for values parsed independently of each other: two arrays or
      objects are never the same reference, and `NaN` equals nothing. */
  predicate StrictEquals(a: JsValue, b: JsValue) {
    match (a, b)
    case (Undefined, Undefined) => true
    case (Null, Null) => true
    case (Bool(x), Bool(y)) => x == y
    case (Num(x), Num(y)) => x == y
    case (Str(x), Str(y)) => x == y
    case _ => false
  }

  /** The characters `trim()` removes and `parseInt` skips: WhiteSpace and
      LineTerminator of ECMAScript (tab, vertical tab, form feed, the BOM, the
      space separators, LF, CR, LS and PS). */
  predicate IsJsSpace(c: char) {
    || c == ' ' || c == '\t' || c == '\n' || c == '\r'
    || c == '\U{000B}' || c == '\U{000C}' || c == '\U{00A0}' || c == '\U{FEFF}'
    || c == '\U{1680}' || ('\U{2000}' <= c <= '\U{200A}')
    || c == '\U{2028}' || c == '\U{2029}' || c == '\U{202F}' || c == '\U{205F}' || c == '\U{3000}'
  }

  predicate AllSpace(s: string) {
    forall i :: 0 <= i < |s| ==> IsJsSpace(s[i])
  }

  function TrimStart(s: string): (r: string)
    decreases |s|
  {
    if |s| > 0 && IsJsSpace(s[0]) then TrimStart(s[1..]) else s
  }

  function TrimEnd(s: string): (r: string)
    decreases |s|
  {
    if |s| > 0 && IsJsSpace(s[|s| - 1]) then TrimEnd(s[..|s| - 1]) else s
  }

  /** `s.trim()`. */
  function Trim(s: string): string {
    TrimEnd(TrimStart(s))
  }

  lemma {:induction false} TrimStartShape(s: string) returns (i: nat)
    ensures i <= |s| && TrimStart(s) == s[i..] && AllSpace(s[..i])
    ensures i < |s| ==> !IsJsSpace(s[i])
    decreases |s|
  {
    if |s| > 0 && IsJsSpace(s[0]) {
      var k := TrimStartShape(s[1..]);
      i := k + 1;
      assert s[1..][k..] == s[i..];
      forall j | 0 <= j < i ensures IsJsSpace(s[..i][j]) {
        if j > 0 { assert s[..i][j] == s[1..][..k][j - 1]; }
      }
    } else {
      i := 0;
    }
  }

  lemma {:induction false} TrimEndShape(s: string) returns (j: nat)
    ensures j <= |s| && TrimEnd(s) == s[..j] && AllSpace(s[j..])
    ensures 0 < j ==> !IsJsSpace(s[j - 1])
    decreases |s|
  {
    if |s| > 0 && IsJsSpace(s[|s| - 1]) {
      var p := s[..|s| - 1];
      j := TrimEndShape(p);
      assert p[..j] == s[..j];
      forall k | 0 <= k < |s| - j ensures IsJsSpace(s[j..][k]) {
        if j + k < |s| - 1 { assert s[j..][k] == p[j..][k]; }
      }
    } else {
      j := |s|;
    }
  }

  /** `s.trim()` is the part of `s` between a leading and a trailing run of
      white space, and neither of its ends is white space. */
  lemma TrimShape(s: string) returns (i: nat, j: nat)
    ensures i <= j <= |s| && Trim(s) == s[i..j]
    ensures AllSpace(s[..i]) && AllSpace(s[j..])
    ensures i < j ==> !IsJsSpace(s[i]) && !IsJsSpace(s[j - 1])
  {
    i := TrimStartShape(s);
    var k := TrimEndShape(s[i..]);
    j := i + k;
    assert s[i..][..k] == s[i..j];
    assert s[i..][k..] == s[j..];
    if i < j {
      assert s[i..][0] == s[i];
      assert s[i..][k - 1] == s[j - 1];
    }
  }

  /** `!s.trim()` holds exactly when `s` is empty or all white space. */
  lemma TrimEmptyIff(s: string)
    ensures Trim(s) == "" <==> AllSpace(s)
  {
    var i, j := TrimShape(s);
    if Trim(s) == "" {
      assert i == j;
      forall k | 0 <= k < |s| ensures IsJsSpace(s[k]) {
        if k < i { assert s[..i][k] == s[k]; } else { assert s[j..][k - j] == s[k]; }
      }
    }
  }

  /** The longest prefix of decimal digits. */
  function LeadingDigits(s: string): (d: string)
    ensures AllDigits(d) && |d| <= |s| && d == s[..|d|]
    ensures |d| < |s| ==> !IsDigit(s[|d|])
    decreases |s|
  {
    if |s| > 0 && IsDigit(s[0]) then [s[0]] + LeadingDigits(s[1..]) else ""
  }

  /** `parseInt(s, 10)` on a string; `None` stands for `NaN`. */
  function ParseIntText(s: string): Option<int> {
    var t := TrimStart(s);
    var negative := |t| > 0 && t[0] == '-';
    var body := if |t| > 0 && (t[0] == '-' || t[0] == '+') then t[1..] else t;
    var d := LeadingDigits(body);
    var magnitude: int := if |d| == 0 then 0 else DecimalValue(d);
    if |d| == 0 then None
    else if negative then Some(-magnitude)
    else Some(magnitude)
  }

  /** `parseInt(v, 10)`: the argument is converted with `String(v)` first. */
  function ParseInt(v: JsValue): Option<int> {
    ParseIntText(ToStr(v))
  }

  lemma {:induction false} LeadingDigitsOfDigits(d: string)
    requires AllDigits(d)
    ensures LeadingDigits(d) == d
    decreases |d|
  {
    if |d| > 0 {
      LeadingDigitsOfDigits(d[1..]);
      assert [d[0]] + d[1..] == d;
    }
  }

  /** `parseInt` reads back every integer `String` writes. */
  lemma ParseIntOfNum(n: int)
    ensures ParseInt(Num(n)) == Some(n)
  {
    var m := if n < 0 then -n else n;
    var digits := NatToString(m);
    LeadingDigitsOfDigits(digits);
    var s := IntToString(n);
    assert !IsJsSpace(s[0]);
    if n < 0 {
      assert s[1..] == digits;
    }
  }

  /** The quality-of-service rule `parseInt(qosLevel, 10) || 0`: `NaN` and 0 give 0,
      every other parsed integer is used as it is, in or out of the range 0..2.
      For a `qosLevel` that is not `Stringable`, `parseInt` throws instead;
      each route tests that before it uses the QoS. */
  function QosOf(qosLevel: JsValue): (q: int)
    ensures q == 0 <==> ParseInt(qosLevel) in {None, Some(0)}
    ensures q != 0 ==> ParseInt(qosLevel) == Some(q)
  {
    match ParseInt(qosLevel)
    case None => 0
    case Some(n) => n
  }

  /** `[0, 1, 2].includes(parseInt(qosLevel, 10))`: the routes warn when
      this fails, writing `qosLevel` and the topic into the warning. */
  predicate QosInRange(qosLevel: JsValue) {
    ParseInt(qosLevel) == Some(0) || ParseInt(qosLevel) == Some(1) || ParseInt(qosLevel) == Some(2)
  }

  /** A numeric `qosLevel` is used unchanged, including values outside 0..2 such as 5. */
  lemma QosOfNumber(n: int)
    ensures QosOf(Num(n)) == n
  {
    ParseIntOfNum(n);
  }

  /** A missing `qosLevel` gives QoS 0. */
  lemma QosOfMissing()
    ensures QosOf(Undefined) == 0
  {
    assert ToStr(Undefined) == "undefined";
    assert TrimStart("undefined") == "undefined";
  }
}

/** The status code and JSON body of an HTTP response. */
module Http {
  import opened JsValues

  datatype Body =
    | ErrorBody(error: string)                     // { error }
    | MessageBody(message: string)                 // { message }
    | OutcomeBody(success: bool, message: string)  // { success, message }
    | ThrownBody(prefix: string)                   // a catch block: prefix + the exception's own message
    | ListBody(result: seq<string>)                // { success: true, result }
    | DetailBody(message: string, detail: Option<string>) // { message, error }; None: the engine's own text

  datatype Response = Response(status: int, body: Body)
}
