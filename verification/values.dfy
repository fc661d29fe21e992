/**
 * The values that flow through the podcast pipeline.
 *
 * The pipeline keeps every channel and every episode as a Python dict
 * (whatever the backend's JSON, feedparser or Whisper produced), so the model
 * does the same: a `Dict` maps key names to `Value`s, and a `Pod` is the
 * (channel, entries) pair that every stage threads through.
 */
module Values {

  /** Python's `None` or a present value. */
  datatype Option<+T> = None | Some(value: T)

  /** The first six fields of a `time.struct_time`. */
  datatype Time = Time(year: int, month: int, day: int, hour: int, minute: int, second: int)

  /** A JSON- or pickle-representable Python value. */
  datatype Value =
    | Null
    | Bool(b: bool)
    | Int(i: int)
    | Str(s: string)
    | Stamp(t: Time)
    | List(items: seq<Value>)
    | Obj(fields: map<string, Value>)

  /** A Python dict with string keys. */
  type Dict = map<string, Value>

  /** One work unit: a channel and its ordered list of entries. */
  datatype Pod = Pod(channel: Dict, entries: seq<Dict>)

  /** `xs` can be obtained from `ys` by deleting elements: same items, same relative order. */
  predicate Subseq<T(==)>(xs: seq<T>, ys: seq<T>)
    decreases |ys|
  {
    if xs == [] then true
    else if ys == [] then false
    else if xs[0] == ys[0] then Subseq(xs[1..], ys[1..])
    else Subseq(xs, ys[1..])
  }

  lemma {:induction false} SubseqRefl<T>(xs: seq<T>)
    ensures Subseq(xs, xs)
    decreases |xs|
  {
    if xs != [] {
      SubseqRefl(xs[1..]);
    }
  }

  lemma {:induction false} SubseqMembers<T>(xs: seq<T>, ys: seq<T>)
    requires Subseq(xs, ys)
    ensures forall x :: x in xs ==> x in ys
    ensures |xs| <= |ys|
    decreases |ys|
  {
    if xs != [] && ys != [] {
      assert xs == [xs[0]] + xs[1..];
      assert ys == [ys[0]] + ys[1..];
      if xs[0] == ys[0] {
        SubseqMembers(xs[1..], ys[1..]);
      } else {
        SubseqMembers(xs, ys[1..]);
      }
    }
  }

  /** Skipping the head of `ys` keeps an embedding. */
  lemma {:induction false} SubseqSkip<T>(xs: seq<T>, ys: seq<T>)
    requires ys != [] && Subseq(xs, ys[1..])
    ensures Subseq(xs, ys)
    decreases |ys|, 0
  {
    if xs != [] && xs[0] == ys[0] {
      SubseqTail(xs, ys[1..]);
    }
  }

  /** Dropping the head of `xs` keeps an embedding. */
  lemma {:induction false} SubseqTail<T>(xs: seq<T>, ys: seq<T>)
    requires xs != [] && Subseq(xs, ys)
    ensures Subseq(xs[1..], ys)
    decreases |ys|, 1
  {
    if ys != [] {
      if xs[0] == ys[0] {
        if xs[1..] != [] {
          SubseqSkip(xs[1..], ys);
        }
      } else {
        SubseqTail(xs, ys[1..]);
        if xs[1..] != [] {
          SubseqSkip(xs[1..], ys);
        }
      }
    }
  }

  /** `f` applied to every element, in order. */
  function MapSeq<A, B>(f: A -> B, xs: seq<A>): (r: seq<B>)
    ensures |r| == |xs|
    ensures forall i :: 0 <= i < |xs| ==> r[i] == f(xs[i])
  {
    if xs == [] then [] else [f(xs[0])] + MapSeq(f, xs[1..])
  }

  /** Position of the first element equal to `x`. */
  function FirstIndex<T(==)>(xs: seq<T>, x: T): (i: nat)
    requires x in xs
    ensures i < |xs| && xs[i] == x && x !in xs[..i]
  {
    if xs[0] == x then 0
    else
      var j := FirstIndex(xs[1..], x);
      assert xs[..j + 1] == [xs[0]] + xs[1..][..j];
      j + 1
  }

  /** Python's `list.remove(x)`: drops the first element equal to `x`. */
  function RemoveFirst<T(==)>(xs: seq<T>, x: T): (r: seq<T>)
    requires x in xs
    ensures |r| == |xs| - 1
    ensures forall y :: y in r ==> y in xs
    ensures multiset(r) + multiset{x} == multiset(xs)
    ensures r[..FirstIndex(xs, x)] == xs[..FirstIndex(xs, x)]
    ensures r[FirstIndex(xs, x)..] == xs[FirstIndex(xs, x) + 1..]
  {
    var i := FirstIndex(xs, x);
    assert xs == xs[..i] + [x] + xs[i + 1..];
    xs[..i] + xs[i + 1..]
  }

  lemma {:induction false} RemoveFirstAppend<T>(xs: seq<T>, ys: seq<T>, x: T)
    requires x in xs
    ensures RemoveFirst(xs + ys, x) == RemoveFirst(xs, x) + ys
  {
    var i := FirstIndex(xs, x);
    FirstIndexAppend(xs, ys, x);
    assert (xs + ys)[..i] == xs[..i];
    assert (xs + ys)[i + 1..] == xs[i + 1..] + ys;
  }

  lemma {:induction false} FirstIndexAppend<T>(xs: seq<T>, ys: seq<T>, x: T)
    requires x in xs
    ensures FirstIndex(xs + ys, x) == FirstIndex(xs, x)
    decreases |xs|
  {
    assert (xs + ys)[0] == xs[0];
    if xs[0] != x {
      assert (xs + ys)[1..] == xs[1..] + ys;
      FirstIndexAppend(xs[1..], ys, x);
    }
  }

  lemma Assoc<T>(x: seq<T>, y: seq<T>, z: seq<T>)
    ensures x + (y + z) == (x + y) + z
  {
  }

  lemma SliceCons<T>(s: seq<T>, k: nat)
    requires k < |s|
    ensures s[k..] == [s[k]] + s[k + 1..]
  {
  }

  /** `d.get(key, default)` */
  function Get(d: Dict, key: string, default: Value): Value
  {
    if key in d then d[key] else default
  }

  /** Python truthiness, as used by `if not x:`. A struct_time is a non-empty tuple. */
  predicate Truthy(v: Value)
  {
    match v
    case Null => false
    case Bool(b) => b
    case Int(i) => i != 0
    case Str(s) => s != ""
    case Stamp(_) => true
    case List(xs) => xs != []
    case Obj(m) => m != map[]
  }

  /** Values whose `str()` the model spells out. */
  predicate IsScalar(v: Value)
  {
    v.Null? || v.Bool? || v.Int? || v.Str?
  }

  predicate IsDigit(c: char)
  {
    '0' <= c <= '9'
  }

  function DigitChar(d: nat): (c: char)
    requires d < 10
    ensures IsDigit(c) && DigitValue(c) == d
  {
    ('0' as int + d) as char
  }

  function DigitValue(c: char): nat
    requires IsDigit(c)
  {
    (c as int - '0' as int) as nat
  }

  /** Decimal spelling of a natural number, without leading zeros. */
  function Decimal(n: nat): (r: string)
    ensures |r| > 0
    ensures forall i :: 0 <= i < |r| ==> IsDigit(r[i])
    ensures n > 0 ==> r[0] != '0'
  {
    if n < 10 then [DigitChar(n)] else Decimal(n / 10) + [DigitChar(n % 10)]
  }

  /** Value of a string of decimal digits. */
  function DigitsValue(s: string): nat
    requires forall i :: 0 <= i < |s| ==> IsDigit(s[i])
  {
    if s == [] then 0 else 10 * DigitsValue(s[..|s| - 1]) + DigitValue(s[|s| - 1])
  }

  lemma {:induction false} DecimalRoundTrip(n: nat)
    ensures DigitsValue(Decimal(n)) == n
  {
    if n >= 10 {
      var s := Decimal(n);
      assert s[..|s| - 1] == Decimal(n / 10);
      DecimalRoundTrip(n / 10);
    }
  }

  /** `str(i)` for a Python int. */
  function IntToString(i: int): string
  {
    if i < 0 then "-" + Decimal(-i) else Decimal(i)
  }

  /** `str(v)`, as an f-string renders a scalar. */
  function Render(v: Value): string
    requires IsScalar(v)
  {
    match v
    case Null => "None"
    case Bool(b) => if b then "True" else "False"
    case Int(i) => IntToString(i)
    case Str(s) => s
  }
}
