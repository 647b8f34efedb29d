/**
 * JSON-like values as they travel between the orchestrator and the participants:
 * request payloads, response bodies, stored records and transaction metadata.
 * A Python dict keeps its insertion order, so a dict is modelled as an
 * association list; a lookup takes the first binding of a key.
 */
module Json {

  datatype Option<+T> = None | Some(value: T)

  datatype Value =
    | Null
    | Bool(b: bool)
    | Int(i: int)
    | Str(s: string)
    | List(items: seq<Value>)
    | Object(fields: seq<(string, Value)>)

  /** An insertion-ordered dict from field names to values. */
  type Dict = seq<(string, Value)>

  /** `d.get(k)`: the value bound to `k`, if any. */
  function Get(d: Dict, k: string): (r: Option<Value>)
  {
    if |d| == 0 then None
    else if d[0].0 == k then Some(d[0].1)
    else Get(d[1..], k)
  }

  /** A key reads as the value of its first binding. */
  lemma {:induction false} GetFirst(d: Dict, k: string, i: nat)
    requires i < |d| && d[i].0 == k
    requires forall j :: 0 <= j < i ==> d[j].0 != k
    ensures Get(d, k) == Some(d[i].1)
  {
    if i > 0 {
      forall j | 0 <= j < i - 1
        ensures d[1..][j].0 != k
      {
        assert d[1..][j] == d[j + 1];
      }
      GetFirst(d[1..], k, i - 1);
    }
  }

  /** A key bound by no entry reads as absent. */
  lemma {:induction false} GetAbsent(d: Dict, k: string)
    requires forall i :: 0 <= i < |d| ==> d[i].0 != k
    ensures Get(d, k) == None
  {
    if |d| > 0 {
      assert d[0].0 != k;
      forall i | 0 <= i < |d| - 1
        ensures d[1..][i].0 != k
      {
        assert d[1..][i] == d[i + 1];
      }
      GetAbsent(d[1..], k);
    }
  }

  /** `k in d` */
  predicate HasKey(d: Dict, k: string) {
    Get(d, k).Some?
  }

  /** `d.get(k, default)` */
  function GetOr(d: Dict, k: string, default: Value): Value {
    match Get(d, k)
    case Some(v) => v
    case None => default
  }

  /** `d.get(k)`: `None` (JSON null) when `k` is absent. */
  function GetOrNull(d: Dict, k: string): Value {
    GetOr(d, k, Null)
  }

  /** The keys of `d` in insertion order. */
  function Keys(d: Dict): (ks: seq<string>)
    ensures |ks| == |d|
    ensures forall i :: 0 <= i < |d| ==> ks[i] == d[i].0
  {
    if |d| == 0 then [] else [d[0].0] + Keys(d[1..])
  }

  /** `d[k] = v`: replaces the binding of `k` in place, or appends it. */
  function Put(d: Dict, k: string, v: Value): (r: Dict)
  {
    if |d| == 0 then [(k, v)]
    else if d[0].0 == k then [(k, v)] + d[1..]
    else [d[0]] + Put(d[1..], k, v)
  }

  /** Writing a key makes it read back the written value and leaves every other key alone. */
  lemma {:induction false} GetPut(d: Dict, k: string, v: Value, k': string)
    ensures Get(Put(d, k, v), k') == if k' == k then Some(v) else Get(d, k')
  {
    if |d| != 0 && d[0].0 != k {
      GetPut(d[1..], k, v, k');
      assert Put(d, k, v)[1..] == Put(d[1..], k, v);
    }
  }

  /** Writing a key keeps the key order: an existing key keeps its place, a new one goes last. */
  lemma {:induction false} KeysPut(d: Dict, k: string, v: Value)
    ensures Keys(Put(d, k, v)) == if HasKey(d, k) then Keys(d) else Keys(d) + [k]
  {
    if |d| != 0 && d[0].0 != k {
      KeysPut(d[1..], k, v);
      assert Put(d, k, v)[1..] == Put(d[1..], k, v);
      assert HasKey(d, k) == HasKey(d[1..], k);
    }
  }

  /** `dict.update(u)`: writes the entries of `u` in order. */
  function Update(d: Dict, u: Dict): Dict
    decreases |u|
  {
    if |u| == 0 then d else Update(Put(d, u[0].0, u[0].1), u[1..])
  }

  /** After `d.update(u)` a key reads as in `u` if `u` binds it, and as in `d` otherwise. */
  lemma {:induction false} GetUpdate(d: Dict, u: Dict, k: string)
    requires forall i, j :: 0 <= i < j < |u| ==> u[i].0 != u[j].0
    ensures Get(Update(d, u), k) == if HasKey(u, k) then Get(u, k) else Get(d, k)
    decreases |u|
  {
    if |u| != 0 {
      GetUpdate(Put(d, u[0].0, u[0].1), u[1..], k);
      GetPut(d, u[0].0, u[0].1, k);
      if k == u[0].0 {
        forall i | 0 <= i < |u[1..]|
          ensures u[1..][i].0 != k
        {
          assert u[1..][i] == u[i + 1];
        }
        GetAbsent(u[1..], k);
      }
    }
  }

  /** Python truthiness of `d.get(k)`: absent, null, false, 0 and empty values are falsy. */
  predicate Truthy(v: Option<Value>) {
    match v
    case None => false
    case Some(x) =>
      match x
      case Null => false
      case Bool(b) => b
      case Int(i) => i != 0
      case Str(s) => s != ""
      case List(xs) => xs != []
      case Object(fs) => fs != []
  }

  function DigitChar(d: nat): (c: char)
    requires d < 10
    ensures '0' <= c <= '9' && c as int - '0' as int == d
  {
    ('0' as int + d) as char
  }

  /** The number a string of decimal digits denotes, most significant digit first. */
  function DecimalValue(s: string): int {
    if |s| == 0 then 0 else DecimalValue(s[..|s| - 1]) * 10 + (s[|s| - 1] as int - '0' as int)
  }

  /** Decimal digits of a natural number, as `str(n)` writes them: no leading zero. */
  function NatToDecimal(n: nat): (s: string)
    ensures |s| > 0
    ensures forall c :: c in s ==> '0' <= c <= '9'
    ensures DecimalValue(s) == n
    ensures s[0] == '0' ==> n == 0
  {
    if n < 10 then [DigitChar(n)]
    else
      var front := NatToDecimal(n / 10);
      assert (front + [DigitChar(n % 10)])[..|front|] == front;
      front + [DigitChar(n % 10)]
  }

  function IntToDecimal(i: int): string {
    if i < 0 then "-" + NatToDecimal(-i) else NatToDecimal(i)
  }

  /** `", ".join(parts)` */
  function Join(parts: seq<string>): string {
    if |parts| == 0 then ""
    else if |parts| == 1 then parts[0]
    else parts[0] + ", " + Join(parts[1..])
  }

  /**
   * `str(v)`. Strings render as themselves; inside a container a string is
   * wrapped in single quotes as it stands (see `QuoteString`), so this
   * matches Python for strings without quotes, backslashes or unprintable
   * characters.
   */
  function Render(v: Value): string
    decreases v, 2
  {
    match v
    case Null => "None"
    case Bool(b) => if b then "True" else "False"
    case Int(i) => IntToDecimal(i)
    case Str(s) => s
    case List(xs) => "[" + Join(seq(|xs|, k requires 0 <= k < |xs| => Repr(xs[k]))) + "]"
    case Object(fs) =>
      "{" + Join(seq(|fs|, k requires 0 <= k < |fs| => FieldRepr(fs, k))) + "}"
  }

  function FieldRepr(fs: seq<(string, Value)>, k: nat): string
    requires k < |fs|
    decreases Object(fs), 1
  {
    assert fs[k] in fs;
    QuoteString(fs[k].0) + ": " + Repr(fs[k].1)
  }

  /**
   * `repr` of a string, for strings without quotes, backslashes or
   * unprintable characters: Python's choice of double quotes and its
   * escapes are not modelled.
   */
  function QuoteString(s: string): string {
    "'" + s + "'"
  }

  /** `repr(v)`, used for the elements of a rendered container. */
  function Repr(v: Value): string
    decreases v, 3
  {
    if v.Str? then QuoteString(v.s) else Render(v)
  }
}
