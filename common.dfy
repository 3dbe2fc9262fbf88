/** Values, rows and the handful of JavaScript string and number built-ins that every
    component of the application relies on. */
module Common {

  datatype Option<T> = None | Some(value: T)

  datatype Result<T> = Ok(value: T) | Err(message: string)

  /** A cell value as the spreadsheet reader hands it over. Numbers are integers in this model. */
  datatype Value = Undefined | Null | Bool(b: bool) | Num(n: int) | Str(s: string)

  /** A data row: column key to cell value; a key that is absent reads as `undefined`. */
  type Row = map<string, Value>

  datatype ColType = StringType | NumberType | DateType | BooleanType

  datatype Column = Column(key: string, caption: string, colType: ColType)

  function Get(row: Row, key: string): (v: Value)
    ensures key !in row ==> v == Undefined
  {
    if key in row then row[key] else Undefined
  }

  /** JavaScript truthiness: `undefined`, `null`, `false`, `0` and `''` are falsy. */
  predicate Truthy(v: Value)
  {
    match v
    case Undefined => false
    case Null => false
    case Bool(b) => b
    case Num(n) => n != 0
    case Str(s) => s != ""
  }

  // ---------------------------------------------------------------- characters

  /** The characters `String.prototype.trim` removes: WhiteSpace and LineTerminator. */
  predicate IsSpace(c: char)
  {
    c == ' ' || c == '\t' || c == '\n' || c == '\r' || c == '\U{B}' || c == '\U{C}'
    || c == '\U{A0}' || c == '\U{FEFF}' || c == '\U{1680}' || ('\U{2000}' <= c <= '\U{200A}')
    || c == '\U{2028}' || c == '\U{2029}' || c == '\U{202F}' || c == '\U{205F}' || c == '\U{3000}'
  }

  predicate IsDigit(c: char) { '0' <= c <= '9' }

  function LowerChar(c: char): (r: char)
    ensures 'A' <= c <= 'Z' ==> 'a' <= r <= 'z'
    ensures !('A' <= c <= 'Z') ==> r == c
  {
    if 'A' <= c <= 'Z' then (c as int + 32) as char else c
  }

  /** `toLowerCase`, on ASCII letters. */
  function Lower(s: string): (r: string)
    ensures |r| == |s|
    ensures forall i :: 0 <= i < |s| ==> r[i] == LowerChar(s[i])
  {
    seq(|s|, i requires 0 <= i < |s| => LowerChar(s[i]))
  }

  function TrimStart(s: string): string
  {
    if s != [] && IsSpace(s[0]) then TrimStart(s[1..]) else s
  }

  function TrimEnd(s: string): string
  {
    if s != [] && IsSpace(s[|s| - 1]) then TrimEnd(s[..|s| - 1]) else s
  }

  /** `trim`: the string without its leading and trailing white space. */
  function Trim(s: string): string
  {
    TrimEnd(TrimStart(s))
  }

  /** `trimStart` removes exactly the leading run of white space. */
  lemma {:induction false} TrimStartSpec(s: string)
    ensures var r := TrimStart(s);
      && |r| <= |s| && r == s[|s| - |r|..]
      && (forall i :: 0 <= i < |s| - |r| ==> IsSpace(s[i]))
      && (r != [] ==> !IsSpace(r[0]))
  {
    if s != [] && IsSpace(s[0]) {
      TrimStartSpec(s[1..]);
      var r := TrimStart(s);
      assert forall i :: 1 <= i < |s| - |r| ==> s[i] == s[1..][i - 1];
    }
  }

  /** `trimEnd` removes exactly the trailing run of white space. */
  lemma {:induction false} TrimEndSpec(s: string)
    ensures var r := TrimEnd(s);
      && |r| <= |s| && r == s[..|r|]
      && (forall i :: |r| <= i < |s| ==> IsSpace(s[i]))
      && (r != [] ==> !IsSpace(r[|r| - 1]))
  {
    if s != [] && IsSpace(s[|s| - 1]) {
      TrimEndSpec(s[..|s| - 1]);
    }
  }

  /** The trimmed string is a slice of the original that neither starts nor ends with white
      space, and it is empty exactly when the original is all white space. */
  lemma TrimSpec(s: string)
    ensures var r := Trim(s);
      && |r| <= |s|
      && (r != [] ==> !IsSpace(r[0]) && !IsSpace(r[|r| - 1]))
      && (r == [] <==> forall i :: 0 <= i < |s| ==> IsSpace(s[i]))
    ensures |Trim(s)| <= |TrimStart(s)| <= |s|
    ensures Trim(s) == s[|s| - |TrimStart(s)|..|s| - |TrimStart(s)| + |Trim(s)|]
  {
    var a := TrimStart(s);
    TrimStartSpec(s);
    TrimEndSpec(a);
    var r := TrimEnd(a);
    if r != [] {
      assert !IsSpace(a[0]);
      assert a[0] == r[0];
    }
  }

  /** A string with no white space at either end is its own trimmed form. */
  lemma TrimUnchanged(s: string)
    requires s != [] && !IsSpace(s[0]) && !IsSpace(s[|s| - 1])
    ensures Trim(s) == s
  {
  }

  /** Trimming twice is trimming once. */
  lemma TrimIdempotent(s: string)
    ensures Trim(Trim(s)) == Trim(s)
  {
    TrimSpec(s);
    if Trim(s) != [] {
      TrimUnchanged(Trim(s));
    }
  }

  predicate StartsWith(s: string, prefix: string)
  {
    |prefix| <= |s| && s[..|prefix|] == prefix
  }

  predicate EndsWith(s: string, suffix: string)
  {
    |suffix| <= |s| && s[|s| - |suffix|..] == suffix
  }

  /** `s.includes(t)`. */
  predicate Contains(s: string, t: string)
  {
    exists i :: 0 <= i <= |s| - |t| && OccursAt(s, t, i)
  }

  predicate OccursAt(s: string, t: string, i: int)
  {
    0 <= i <= |s| - |t| && s[i..i + |t|] == t
  }

  /** An occurrence of `t` at `i` puts `t[j]` at `i + j`. */
  lemma OccursAtChar(s: string, t: string, i: int, j: int)
    requires OccursAt(s, t, i) && 0 <= j < |t|
    ensures s[i + j] == t[j]
  {
    assert s[i + j] == s[i..i + |t|][j];
  }

  function Join(parts: seq<string>, sep: string): string
  {
    if parts == [] then "" else if |parts| == 1 then parts[0] else parts[0] + sep + Join(parts[1..], sep)
  }

  // ---------------------------------------------------------------- numbers

  function DigitChar(d: nat): char
    requires d < 10
  {
    ['0', '1', '2', '3', '4', '5', '6', '7', '8', '9'][d]
  }

  function NatToDecimal(n: nat): (r: string)
    ensures |r| >= 1
    ensures forall i :: 0 <= i < |r| ==> IsDigit(r[i])
  {
    if n < 10 then [DigitChar(n)] else NatToDecimal(n / 10) + [DigitChar(n % 10)]
  }

  /** `String(n)` for an integer. */
  function IntToDecimal(n: int): string
  {
    if n < 0 then "-" + NatToDecimal(-n) else NatToDecimal(n)
  }

  /** `String(v)`. */
  function Stringify(v: Value): string
  {
    match v
    case Undefined => "undefined"
    case Null => "null"
    case Bool(b) => if b then "true" else "false"
    case Num(n) => IntToDecimal(n)
    case Str(s) => s
  }

  /** `String(v || '').trim()`: the text key a cell contributes to matching. */
  function CellText(row: Row, key: string): string
  {
    var v := Get(row, key);
    Trim(if Truthy(v) then Stringify(v) else "")
  }

  /** Length of the run of decimal digits at the start of `s`. */
  function DigitRun(s: string): (n: nat)
    ensures n <= |s|
    ensures forall i :: 0 <= i < n ==> IsDigit(s[i])
    ensures n < |s| ==> !IsDigit(s[n])
  {
    if s != [] && IsDigit(s[0]) then 1 + DigitRun(s[1..]) else 0
  }

  function DigitsValue(d: string): nat
    requires forall i :: 0 <= i < |d| ==> IsDigit(d[i])
  {
    if d == [] then 0
    else
      assert IsDigit(d[|d| - 1]);
      DigitsValue(d[..|d| - 1]) * 10 + (d[|d| - 1] as int - '0' as int)
  }

  /** A decimal literal read from the start of a string: its integer part and how many
      characters it used. */
  datatype NumericPrefix = NumericPrefix(value: int, length: nat)

  /** Reads `[+-]? digits* ('.' digits*)?` with at least one digit. */
  function ScanNumber(s: string): (r: Option<NumericPrefix>)
    ensures r.Some? ==> 1 <= r.value.length <= |s|
  {
    var sign := if |s| > 0 && (s[0] == '+' || s[0] == '-') then 1 else 0;
    var rest := s[sign..];
    var ni := DigitRun(rest);
    var frac := if ni < |rest| && rest[ni] == '.' then 1 + DigitRun(rest[ni + 1..]) else 0;
    var nf := if frac > 0 then frac - 1 else 0;
    if ni + nf == 0 then None
    else
      var mag: int := DigitsValue(rest[..ni]);
      Some(NumericPrefix(if sign == 1 && s[0] == '-' then -mag else mag, sign + ni + frac))
  }

  /** `parseFloat(s)`: `None` stands for NaN. */
  function ParseFloat(s: string): Option<int>
  {
    match ScanNumber(TrimStart(s))
    case None => None
    case Some(p) => Some(p.value)
  }

  /** `Number(v) || 0`. */
  function NumberOrZero(v: Value): int
  {
    match v
    case Undefined => 0
    case Null => 0
    case Bool(b) => if b then 1 else 0
    case Num(n) => n
    case Str(s) =>
      var t := Trim(s);
      if t == "" then 0
      else match ScanNumber(t)
        case Some(p) => if p.length == |t| then p.value else 0
        case None => 0
  }

  /** `typeof v === 'number' ? v : 0`. */
  function MetricValue(v: Value): int
  {
    if v.Num? then v.n else 0
  }

  function Sum(xs: seq<int>): int
  {
    if xs == [] then 0 else Sum(xs[..|xs| - 1]) + xs[|xs| - 1]
  }

  lemma {:induction false} SumAppend(xs: seq<int>, ys: seq<int>)
    ensures Sum(xs + ys) == Sum(xs) + Sum(ys)
    decreases |ys|
  {
    if ys == [] {
      assert xs + ys == xs;
    } else {
      assert xs + ys == (xs + ys[..|ys| - 1]) + [ys[|ys| - 1]];
      SumAppend(xs, ys[..|ys| - 1]);
    }
  }

  // ---------------------------------------------------------------- sequences of records

  predicate Distinct<T(==)>(s: seq<T>)
  {
    forall i, j :: 0 <= i < j < |s| ==> s[i] != s[j]
  }

  /** The distinct elements in order of first occurrence, as a `Set` keeps them. */
  function Dedup<T(==)>(xs: seq<T>): seq<T>
  {
    if xs == [] then []
    else
      var d := Dedup(xs[..|xs| - 1]);
      if xs[|xs| - 1] in d then d else d + [xs[|xs| - 1]]
  }

  lemma {:induction false} DedupSpec<T>(xs: seq<T>)
    ensures Distinct(Dedup(xs))
    ensures forall y :: y in Dedup(xs) <==> y in xs
  {
    if xs != [] {
      DedupSpec(xs[..|xs| - 1]);
      assert xs == xs[..|xs| - 1] + [xs[|xs| - 1]];
    }
  }

  /** `data.map(f)`. */
  function Project<T>(data: seq<Row>, f: Row -> T): (r: seq<T>)
    ensures |r| == |data| && forall i :: 0 <= i < |data| ==> r[i] == f(data[i])
  {
    seq(|data|, i requires 0 <= i < |data| => f(data[i]))
  }

  /** `Number(d[key]) || 0`: the number a record contributes under `key`. */
  function NumberOf(key: string): Row -> int
  {
    d => NumberOrZero(Get(d, key))
  }

  /** What the records contribute, one value each, in record order. */
  function Measures(data: seq<Row>, valueOf: Row -> int): seq<int>
  {
    if data == [] then [] else Measures(data[..|data| - 1], valueOf) + [valueOf(data[|data| - 1])]
  }

  /** The measures of two runs of records are the two runs of measures. */
  lemma {:induction false} MeasuresAppend(data: seq<Row>, more: seq<Row>, valueOf: Row -> int)
    ensures Measures(data + more, valueOf) == Measures(data, valueOf) + Measures(more, valueOf)
    decreases |more|
  {
    if more == [] {
      assert data + more == data;
    } else {
      var init, x := more[..|more| - 1], more[|more| - 1];
      MeasuresAppend(data, init, valueOf);
      var all := data + more;
      assert all[..|all| - 1] == data + init && all[|all| - 1] == x;
      assert Measures(all, valueOf) == Measures(data + init, valueOf) + [valueOf(x)];
      assert Measures(more, valueOf) == Measures(init, valueOf) + [valueOf(x)];
    }
  }
}
