/**
 * The two formatting operations of the downloader: Python's `template % arg` with a
 * single string argument, and the zero-padded `{v:0>{w}}` counters of its progress line.
 */
module Format {
  import opened Wrappers

  /** Why Python's `%` operator raises for a template and a single string argument. */
  datatype FormatError =
    | IncompleteFormat       // a lone `%` at the end of the template
    | UnsupportedDirective   // a directive other than `%s` and `%%`
    | NotEnoughArguments     // a second `%s`
    | NotAllConverted        // no `%s` at all

  /** Prepends `p` to a successful result. */
  function Prepend(p: string, r: Result<string, FormatError>): Result<string, FormatError>
  {
    match r
    case Success(s) => Success(p + s)
    case Failure(e) => Failure(e)
  }

  /** Formats `t`, where `used` says whether the argument has already been consumed. */
  function Interpolate(t: string, arg: string, used: bool): Result<string, FormatError>
    decreases |t|
  {
    if t == [] then (if used then Success([]) else Failure(NotAllConverted))
    else if t[0] != '%' then Prepend([t[0]], Interpolate(t[1..], arg, used))
    else if |t| == 1 then Failure(IncompleteFormat)
    else if t[1] == '%' then Prepend("%", Interpolate(t[2..], arg, used))
    else if t[1] != 's' then Failure(UnsupportedDirective)
    else if used then Failure(NotEnoughArguments)
    else Prepend(arg, Interpolate(t[2..], arg, true))
  }

  /** Python's `template % arg` for a string `arg`. */
  function Percent(template: string, arg: string): Result<string, FormatError>
  {
    Interpolate(template, arg, false)
  }

  /** Text without `%` is copied through unchanged. */
  lemma {:induction false} InterpolatePlain(a: string, t: string, arg: string, used: bool)
    requires '%' !in a
    ensures Interpolate(a + t, arg, used) == Prepend(a, Interpolate(t, arg, used))
    decreases |a|
  {
    if a == [] {
      assert a + t == t;
      match Interpolate(t, arg, used)
      case Success(s) => assert [] + s == s;
      case Failure(_) =>
    } else {
      assert (a + t)[0] == a[0] && (a + t)[1..] == a[1..] + t;
      InterpolatePlain(a[1..], t, arg, used);
      match Interpolate(t, arg, used)
      case Success(s) => assert [a[0]] + (a[1..] + s) == a + s;
      case Failure(_) =>
    }
  }

  /** A template with exactly one `%s` and no other `%` puts the argument in its place. */
  lemma SingleSlot(a: string, b: string, arg: string)
    requires '%' !in a && '%' !in b
    ensures Percent(a + "%s" + b, arg) == Success(a + arg + b)
  {
    var t := "%s" + b;
    assert t[0] == '%' && t[1] == 's' && t[2..] == b;
    InterpolatePlain(b, [], arg, true);
    assert b + [] == b;
    assert Interpolate(b, arg, true) == Success(b);
    assert Interpolate(t, arg, false) == Success(arg + b);
    InterpolatePlain(a, t, arg, false);
    assert a + t == a + "%s" + b;
    assert a + (arg + b) == a + arg + b;
  }

  /** A template without `%` leaves the argument unconverted, which Python reports. */
  lemma NoSlot(a: string, arg: string)
    requires '%' !in a
    ensures Percent(a, arg) == Failure(NotAllConverted)
  {
    InterpolatePlain(a, [], arg, false);
    assert a + [] == a;
  }

  /** The decimal digit for `d`. */
  function Digit(d: nat): (c: char)
    requires d < 10
    ensures '0' <= c <= '9'
  {
    "0123456789"[d]
  }

  predicate IsDigits(s: string)
  {
    forall i :: 0 <= i < |s| ==> '0' <= s[i] <= '9'
  }

  /** Python's `str(n)` for a natural number. */
  function Decimal(n: nat): (r: string)
    ensures |r| >= 1 && IsDigits(r)
    ensures r[0] == '0' ==> n == 0
    decreases n
  {
    if n < 10 then [Digit(n)] else Decimal(n / 10) + [Digit(n % 10)]
  }

  /** The value of a string of decimal digits; leading zeros are allowed. */
  function Value(s: string): nat
    requires IsDigits(s)
  {
    if s == [] then 0 else 10 * Value(s[..|s| - 1]) + (s[|s| - 1] - '0') as nat
  }

  /** Reading back `str(n)` gives `n`. */
  lemma {:induction false} DecimalValue(n: nat)
    ensures Value(Decimal(n)) == n
    decreases n
  {
    var d := Decimal(n);
    DigitValue(n % 10);
    if n >= 10 {
      DecimalValue(n / 10);
      assert d[..|d| - 1] == Decimal(n / 10);
      assert d[|d| - 1] == Digit(n % 10);
      assert Value(d) == 10 * (n / 10) + n % 10;
    } else {
      assert d[..|d| - 1] == [];
      assert Value(d) == (Digit(n) - '0') as nat;
    }
  }

  /** Each digit stands for its own value. */
  lemma DigitValue(d: nat)
    requires d < 10
    ensures (Digit(d) - '0') as nat == d
  {
    if d < 5 {
      assert d == 0 || d == 1 || d == 2 || d == 3 || d == 4;
    } else {
      assert d == 5 || d == 6 || d == 7 || d == 8 || d == 9;
    }
  }

  /** A larger number never has fewer digits. */
  lemma {:induction false} DecimalWidthMonotone(a: nat, b: nat)
    requires a <= b
    ensures |Decimal(a)| <= |Decimal(b)|
    decreases b
  {
    if a >= 10 {
      DecimalWidthMonotone(a / 10, b / 10);
    }
  }

  /** `k` zero characters. */
  function Zeros(k: nat): (r: string)
    ensures |r| == k
    ensures forall i :: 0 <= i < k ==> r[i] == '0'
  {
    if k == 0 then [] else Zeros(k - 1) + "0"
  }

  /** Python's `f"{s:0>{w}}"`: `s` right-aligned in a field of `w` characters filled with '0'. */
  function ZeroPad(s: string, w: nat): (r: string)
    ensures |r| == if |s| < w then w else |s|
    ensures r[|r| - |s|..] == s
    ensures forall i :: 0 <= i < |r| - |s| ==> r[i] == '0'
  {
    if |s| < w then Zeros(w - |s|) + s else s
  }

  /** Leading zeros do not change the value. */
  lemma {:induction false} LeadingZeros(z: nat, s: string)
    requires IsDigits(s)
    ensures IsDigits(Zeros(z) + s)
    ensures Value(Zeros(z) + s) == Value(s)
    decreases |s|
  {
    var t := Zeros(z) + s;
    if s == [] {
      assert t == Zeros(z);
      AllZeros(z);
    } else {
      assert t[..|t| - 1] == Zeros(z) + s[..|s| - 1];
      LeadingZeros(z, s[..|s| - 1]);
    }
  }

  lemma {:induction false} AllZeros(z: nat)
    ensures IsDigits(Zeros(z))
    ensures Value(Zeros(z)) == 0
    decreases z
  {
    if z > 0 {
      var t := Zeros(z);
      assert t == Zeros(z - 1) + "0";
      assert t[..|t| - 1] == Zeros(z - 1) && t[|t| - 1] == '0';
      AllZeros(z - 1);
      assert Value(t) == 10 * Value(Zeros(z - 1)) + 0;
    }
  }

  /** The digit width of `n`: Python's `len(str(n))`. */
  function Width(n: nat): nat
  {
    |Decimal(n)|
  }

  /** One progress counter: `{i:0>{w}}/{n:0>{w}}` with `w = len(str(n))`. */
  function Counter(i: nat, n: nat): string
  {
    ZeroPad(Decimal(i), Width(n)) + "/" + ZeroPad(Decimal(n), Width(n))
  }

  /** The left field of a counter: `i` padded to the width of `n`, which reads back as `i`. */
  lemma PaddedValue(i: nat, n: nat)
    requires i <= n
    ensures |ZeroPad(Decimal(i), Width(n))| == Width(n)
    ensures IsDigits(ZeroPad(Decimal(i), Width(n)))
    ensures Value(ZeroPad(Decimal(i), Width(n))) == i
  {
    var d, w := Decimal(i), Width(n);
    DecimalWidthMonotone(i, n);
    PadDigits(d, w);
    DecimalValue(i);
  }

  /** Padding a digit string keeps its value. */
  lemma PadDigits(d: string, w: nat)
    requires IsDigits(d) && |d| <= w
    ensures |ZeroPad(d, w)| == w
    ensures IsDigits(ZeroPad(d, w)) && Value(ZeroPad(d, w)) == Value(d)
  {
    var z := w - |d|;
    assert ZeroPad(d, w) == Zeros(z) + d;
    LeadingZeros(z, d);
  }

  lemma SlashJoin(left: string, right: string)
    ensures |left + "/" + right| == |left| + |right| + 1
    ensures (left + "/" + right)[..|left|] == left
    ensures (left + "/" + right)[|left|] == '/'
    ensures (left + "/" + right)[|left| + 1..] == right
  {
  }

  /** A counter up to `n` has both fields exactly as wide as `n` and reads back as `i` and `n`. */
  lemma CounterShape(i: nat, n: nat)
    requires i <= n
    ensures |Counter(i, n)| == 2 * Width(n) + 1
    ensures Counter(i, n)[Width(n)] == '/'
    ensures IsDigits(Counter(i, n)[..Width(n)]) && Value(Counter(i, n)[..Width(n)]) == i
    ensures Counter(i, n)[Width(n) + 1..] == Decimal(n)
  {
    var w, d := Width(n), Decimal(n);
    PaddedValue(i, n);
    var left := ZeroPad(Decimal(i), w);
    PadWide(d, w);
    assert Counter(i, n) == left + "/" + d;
    SlashJoin(left, d);
  }

  /** A text at least as wide as the field is not padded. */
  lemma PadWide(s: string, w: nat)
    requires w <= |s|
    ensures ZeroPad(s, w) == s
  {
  }
}
