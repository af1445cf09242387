/** The few Python `str` operations the repository's parsers are built from. */
module Text {

  datatype Option<+T> = None | Some(value: T)

  /** `str.isspace` for one character. */
  predicate IsSpace(c: char) {
    || '\t' <= c <= '\r'
    || '\U{1C}' <= c <= ' '
    || c == '\U{85}' || c == '\U{A0}' || c == '\U{1680}'
    || '\U{2000}' <= c <= '\U{200A}'
    || c == '\U{2028}' || c == '\U{2029}' || c == '\U{202F}' || c == '\U{205F}' || c == '\U{3000}'
  }

  /** The line boundaries of `str.splitlines`. */
  predicate IsBreak(c: char) {
    '\n' <= c <= '\r' || '\U{1C}' <= c <= '\U{1E}' || c == '\U{85}' || c == '\U{2028}' || c == '\U{2029}'
  }

  /** Both by their code points. */
  lemma SpacesExactly(c: char)
    ensures IsSpace(c)
       <==> var n := c as int;
            9 <= n <= 13 || 28 <= n <= 32 || n in {133, 160, 5760, 8232, 8233, 8239, 8287, 12288} || 8192 <= n <= 8202
    ensures IsBreak(c) <==> c as int in {10, 11, 12, 13, 28, 29, 30, 133, 8232, 8233}
  {
  }

  predicate IsDigit(c: char) { '0' <= c <= '9' }

  predicate IsHex(c: char) { IsDigit(c) || 'a' <= c <= 'f' || 'A' <= c <= 'F' }

  predicate All(s: string, p: char -> bool) {
    forall i | 0 <= i < |s| :: p(s[i])
  }

  predicate Has(s: string, c: char) {
    exists i | 0 <= i < |s| :: s[i] == c
  }

  // ---- strip ---------------------------------------------------------------

  /** `str.lstrip()` */
  function TrimLeft(s: string): string {
    if s != "" && IsSpace(s[0]) then TrimLeft(s[1..]) else s
  }

  /** `str.rstrip()` */
  function TrimRight(s: string): string {
    if s != "" && IsSpace(s[|s| - 1]) then TrimRight(s[..|s| - 1]) else s
  }

  /** `str.strip()` */
  function Trim(s: string): string {
    TrimRight(TrimLeft(s))
  }

  lemma {:induction false} TrimLeftAppend(s: string, t: string)
    ensures TrimLeft(s + t) == if TrimLeft(s) == "" then TrimLeft(t) else TrimLeft(s) + t
  {
    if s == "" {
      assert s + t == t;
    } else if IsSpace(s[0]) {
      assert (s + t)[1..] == s[1..] + t;
      TrimLeftAppend(s[1..], t);
    }
  }

  /** A trailing white-space character is invisible to `strip`. */
  lemma TrimAppendSpace(s: string, c: char)
    requires IsSpace(c)
    ensures Trim(s + [c]) == Trim(s)
  {
    TrimLeftAppend(s, [c]);
    assert TrimLeft([c]) == "";
    var t := TrimLeft(s);
    assert (t + [c])[..|t|] == t;
  }

  lemma {:induction false} TrimRightIdempotent(s: string)
    ensures TrimRight(s) <= s
    ensures TrimRight(s) == "" || !IsSpace(TrimRight(s)[|TrimRight(s)| - 1])
  {
    if s != "" && IsSpace(s[|s| - 1]) {
      TrimRightIdempotent(s[..|s| - 1]);
    }
  }

  lemma {:induction false} TrimLeftHead(s: string)
    ensures TrimLeft(s) == "" || !IsSpace(TrimLeft(s)[0])
    ensures |TrimLeft(s)| <= |s| && TrimLeft(s) == s[|s| - |TrimLeft(s)|..]
  {
    if s != "" && IsSpace(s[0]) {
      TrimLeftHead(s[1..]);
    }
  }

  lemma TrimIdempotent(s: string)
    ensures Trim(Trim(s)) == Trim(s)
  {
    TrimLeftHead(s);
    TrimRightIdempotent(TrimLeft(s));
  }

  /** Text without white space is already stripped. */
  /** `strip` takes white space off both ends, and all of it. */
  lemma TrimExactly(s: string) returns (i: nat, j: nat)
    ensures i <= j <= |s| && Trim(s) == s[i..j]
    ensures forall k | 0 <= k < |s| && (k < i || j <= k) :: IsSpace(s[k])
    ensures i < j ==> !IsSpace(s[i]) && !IsSpace(s[j - 1])
  {
    i := LeftExactly(s);
    j := RightExactly(s[i..]);
    assert s[i..][..j] == s[i..i + j];
    assert forall k | i <= k < |s| :: s[k] == s[i..][k - i];
    j := i + j;
  }

  lemma {:induction false} LeftExactly(s: string) returns (i: nat)
    ensures i <= |s| && TrimLeft(s) == s[i..] && (forall k | 0 <= k < i :: IsSpace(s[k]))
    ensures i < |s| ==> !IsSpace(s[i])
  {
    i := 0;
    if s != "" && IsSpace(s[0]) {
      i := LeftExactly(s[1..]);
      assert s[1..][i..] == s[i + 1..];
      assert forall k | 0 < k <= i :: s[k] == s[1..][k - 1];
      i := i + 1;
    }
  }

  lemma {:induction false} RightExactly(s: string) returns (j: nat)
    ensures j <= |s| && TrimRight(s) == s[..j] && (forall k | j <= k < |s| :: IsSpace(s[k]))
    ensures j > 0 ==> !IsSpace(s[j - 1])
  {
    j := |s|;
    if s != "" && IsSpace(s[|s| - 1]) {
      j := RightExactly(s[..|s| - 1]);
      assert s[..|s| - 1][..j] == s[..j];
    } else {
      assert s[..j] == s;
    }
  }

  lemma TrimPlain(s: string)
    requires All(s, c => !IsSpace(c))
    ensures TrimLeft(s) == s && Trim(s) == s
  {
  }

  // ---- case ----------------------------------------------------------------

  /** ASCII `str.lower`, used here only to compare with ASCII words. */
  function Lower(s: string): (r: string)
    ensures |r| == |s|
  {
    seq(|s|, i requires 0 <= i < |s| => if 'A' <= s[i] <= 'Z' then s[i] - 'A' + 'a' else s[i])
  }

  lemma LowerExactly(s: string, i: nat)
    requires i < |s|
    ensures Lower(s)[i] as int == if 65 <= s[i] as int <= 90 then s[i] as int + 32 else s[i] as int
  {
  }

  // ---- partition, split and join --------------------------------------------

  /** Position of the first `c`, or `|s|`. */
  function IndexOf(s: string, c: char): (n: nat)
    ensures n <= |s|
    ensures n < |s| ==> s[n] == c
    ensures forall i | 0 <= i < n :: s[i] != c
  {
    if s == "" || s[0] == c then 0 else 1 + IndexOf(s[1..], c)
  }

  lemma IndexOfIs(s: string, c: char, n: nat)
    requires n <= |s|
    requires forall i | 0 <= i < n :: s[i] != c
    requires n < |s| ==> s[n] == c
    ensures IndexOf(s, c) == n
  {
  }

  /** `s.split(sep)` for a one-character separator. */
  function Split(s: string, sep: char): (parts: seq<string>)
    ensures parts != []
    decreases |s|
  {
    var n := IndexOf(s, sep);
    if n == |s| then [s] else [s[..n]] + Split(s[n + 1..], sep)
  }

  /** `sep.join(parts)` */
  function Join(parts: seq<string>, sep: char): string {
    if parts == [] then "" else if |parts| == 1 then parts[0] else parts[0] + [sep] + Join(parts[1..], sep)
  }

  predicate Separable(parts: seq<string>, sep: char) {
    parts != [] && forall i | 0 <= i < |parts| :: !Has(parts[i], sep)
  }

  lemma {:induction false} JoinSplit(s: string, sep: char)
    ensures Join(Split(s, sep), sep) == s
    ensures Separable(Split(s, sep), sep)
    decreases |s|
  {
    var n := IndexOf(s, sep);
    if n < |s| {
      var rest := Split(s[n + 1..], sep);
      JoinSplit(s[n + 1..], sep);
      assert Split(s, sep) == [s[..n]] + rest;
      assert Split(s, sep)[1..] == rest;
      assert s == s[..n] + [sep] + s[n + 1..];
    }
  }

  lemma {:induction false} SplitJoin(parts: seq<string>, sep: char)
    requires Separable(parts, sep)
    ensures Split(Join(parts, sep), sep) == parts
    decreases |parts|
  {
    var s := Join(parts, sep);
    if |parts| == 1 {
      IndexOfIs(s, sep, |s|);
    } else {
      var n := |parts[0]|;
      assert s == parts[0] + [sep] + Join(parts[1..], sep);
      IndexOfIs(s, sep, n);
      assert s[..n] == parts[0] && s[n + 1..] == Join(parts[1..], sep);
      SplitJoin(parts[1..], sep);
    }
  }

  lemma {:induction false} JoinAll(parts: seq<string>, sep: char, p: char -> bool)
    requires forall i | 0 <= i < |parts| :: All(parts[i], p)
    requires p(sep)
    ensures All(Join(parts, sep), p)
  {
    if |parts| > 1 {
      JoinAll(parts[1..], sep, p);
    }
  }

  function Concat(parts: seq<string>): string {
    if parts == [] then "" else parts[0] + Concat(parts[1..])
  }

  lemma {:induction false} ConcatAppend(a: seq<string>, b: seq<string>)
    ensures Concat(a + b) == Concat(a) + Concat(b)
  {
    if a == [] {
      assert a + b == b;
    } else {
      assert (a + b)[1..] == a[1..] + b;
      ConcatAppend(a[1..], b);
    }
  }

  /** `f` of each element, in order. */
  function FlatMap<T, U>(xs: seq<T>, f: T -> seq<U>): seq<U> {
    if xs == [] then [] else f(xs[0]) + FlatMap(xs[1..], f)
  }

  lemma FlatMapCons<T, U>(x: T, xs: seq<T>, f: T -> seq<U>)
    ensures FlatMap([x] + xs, f) == f(x) + FlatMap(xs, f)
  {
    assert ([x] + xs)[1..] == xs;
  }

  lemma {:induction false} FlatMapAppend<T, U>(a: seq<T>, b: seq<T>, f: T -> seq<U>)
    ensures FlatMap(a + b, f) == FlatMap(a, f) + FlatMap(b, f)
  {
    if a == [] {
      assert a + b == b;
    } else {
      assert (a + b)[1..] == a[1..] + b;
      FlatMapAppend(a[1..], b, f);
    }
  }

  lemma FlatMapStep<T, U>(xs: seq<T>, i: nat, f: T -> seq<U>)
    requires i < |xs|
    ensures FlatMap(xs[..i + 1], f) == FlatMap(xs[..i], f) + f(xs[i])
  {
    assert xs[..i + 1] == xs[..i] + [xs[i]];
    FlatMapAppend(xs[..i], [xs[i]], f);
    FlatMapOne(xs[i], f);
  }

  lemma FlatMapOne<T, U>(x: T, f: T -> seq<U>)
    ensures FlatMap([x], f) == f(x)
  {
    assert [x][1..] == [];
  }

  lemma FlatMapPrefix<T, U>(xs: seq<T>, n: nat, f: T -> seq<U>)
    requires n <= |xs|
    ensures FlatMap(xs[..n], f) <= FlatMap(xs, f)
  {
    assert xs == xs[..n] + xs[n..];
    FlatMapAppend(xs[..n], xs[n..], f);
  }

  // ---- numbers --------------------------------------------------------------

  /** A numeral's digit, as `%x` and `str(int)` print it. */
  function DigitChar(d: nat): (c: char)
    requires d < 16
    ensures IsHex(c) && DigitValue(c) == d && !IsSpace(c)
    ensures d < 10 ==> IsDigit(c)
  {
    if d < 10 then '0' + d as char else 'a' + (d - 10) as char
  }

  function DigitValue(c: char): (d: nat)
    requires IsHex(c)
    ensures d < 16 && (IsDigit(c) ==> d < 10)
  {
    if IsDigit(c) then (c - '0') as nat
    else if 'a' <= c <= 'f' then (c - 'a') as nat + 10
    else (c - 'A') as nat + 10
  }

  predicate IsNumeral(s: string, base: nat) {
    s != "" && forall i | 0 <= i < |s| :: IsHex(s[i]) && DigitValue(s[i]) < base
  }

  /** `int(s, base)` on a numeral. */
  function FromBase(s: string, base: nat): nat
    requires IsNumeral(s, base)
  {
    if |s| == 1 then DigitValue(s[0])
    else FromBase(s[..|s| - 1], base) * base + DigitValue(s[|s| - 1])
  }

  lemma DivideLess(n: nat, base: nat)
    requires base >= 2 && n >= base
    ensures 0 < n / base < n && n % base < base
    ensures (n / base) * base + n % base == n
  {
  }

  /** The shortest lower-case numeral of `n`: `str(n)` or `'%x' % n`. */
  function ToBase(n: nat, base: nat): (s: string)
    requires 2 <= base <= 16
    ensures IsNumeral(s, base)
    ensures s[0] == '0' ==> n == 0
  {
    if n < base then [DigitChar(n)]
    else
      DivideLess(n, base);
      ToBase(n / base, base) + [DigitChar(n % base)]
  }

  lemma {:induction false} ToFromBase(n: nat, base: nat)
    requires 2 <= base <= 16
    ensures FromBase(ToBase(n, base), base) == n
  {
    if n >= base {
      DivideLess(n, base);
      ToFromBase(n / base, base);
      var s := ToBase(n, base);
      assert s[..|s| - 1] == ToBase(n / base, base);
    }
  }

  /** `str(n)` */
  function Decimal(n: int): (s: string)
    ensures s != "" && All(s, c => IsDigit(c) || c == '-')
  {
    if n < 0 then "-" + ToBase(-n, 10) else ToBase(n, 10)
  }
}
