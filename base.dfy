/** Shared value types: optional values, results carrying a Python-style
    exception, and the JSON-like values that pattern payloads and tool
    responses are built from. */
module Base {

  datatype Option<T> = None | Some(value: T) {
    function GetOr(default: T): T {
      match this
      case Some(v) => v
      case None => default
    }

    /** The value as a sequence of zero or one items. */
    function ToSeq(): seq<T> {
      match this
      case Some(v) => [v]
      case None => []
    }
  }

  /** The exception classes the core raises or catches. */
  datatype ExnKind =
    | AdbError        // ADBError from the adapter layer
    | ValueErr        // ValueError, e.g. int() on a malformed string
    | TypeErr         // TypeError, e.g. `raise None`
    | AttributeErr    // AttributeError, e.g. calling .get on None
    | IndexErr        // IndexError, e.g. an out-of-range list index
    | OtherErr        // any other Exception subclass

  datatype Exn = Exn(kind: ExnKind, msg: string)

  /** The Python class name that `type(error).__name__` reports. */
  function KindName(k: ExnKind): string {
    match k
    case AdbError => "ADBError"
    case ValueErr => "ValueError"
    case TypeErr => "TypeError"
    case AttributeErr => "AttributeError"
    case IndexErr => "IndexError"
    case OtherErr => "Exception"
  }

  /** A value or the exception that interrupted its computation. */
  datatype Result<T> = Ok(value: T) | Err(exn: Exn) {
    predicate IsFailure() { Err? }
    function PropagateFailure<U>(): Result<U>
      requires Err?
    {
      Err(exn)
    }
    function Extract(): T
      requires Ok?
    {
      value
    }
  }

  function AdbErr<T>(msg: string): Result<T> {
    Err(Exn(AdbError, msg))
  }

  /** JSON-like values, as produced by json.loads and held in Python dicts. */
  datatype Value =
    | Null
    | Bool(b: bool)
    | Num(n: real)
    | Str(s: string)
    | List(items: seq<Value>)
    | Dict(fields: map<string, Value>)

  /** Python truthiness of a JSON-like value. */
  predicate Truthy(v: Value) {
    match v
    case Null => false
    case Bool(b) => b
    case Num(n) => n != 0.0
    case Str(s) => s != ""
    case List(items) => items != []
    case Dict(fields) => fields != map[]
  }

  function Min(a: int, b: int): int { if a <= b then a else b }
  function Max(a: int, b: int): int { if a >= b then a else b }

  // ---------------------------------------------------------------- sequences

  /** `xs[:k]` for a non-negative k. */
  function Take<T>(xs: seq<T>, k: nat): (r: seq<T>)
    ensures |r| == Min(|xs|, k) && r == xs[..|r|]
  {
    xs[..Min(|xs|, k)]
  }

  /** `a` keeps some of the elements of `b`, in their order in `b`. */
  predicate Subseq<T(==)>(a: seq<T>, b: seq<T>)
    decreases |b|
  {
    a == [] || (b != [] && ((a[0] == b[0] && Subseq(a[1..], b[1..])) || Subseq(a, b[1..])))
  }

  /** A prefix of a subsequence is a subsequence. */
  lemma {:induction false} SubseqPrefix<T>(a: seq<T>, b: seq<T>, k: nat)
    requires Subseq(a, b) && k <= |a|
    ensures Subseq(a[..k], b)
    decreases |b|
  {
    if k > 0 {
      if a[0] == b[0] && Subseq(a[1..], b[1..]) {
        SubseqPrefix(a[1..], b[1..], k - 1);
        assert a[..k][1..] == a[1..][..k - 1];
      } else {
        SubseqPrefix(a, b[1..], k);
      }
    }
  }

  /** Every element of a subsequence occurs in the sequence. */
  lemma {:induction false} SubseqIn<T>(a: seq<T>, b: seq<T>, x: T)
    requires Subseq(a, b) && x in a
    ensures x in b
    decreases |b|
  {
    if a[0] == b[0] && Subseq(a[1..], b[1..]) {
      if x != a[0] {
        assert x in a[1..];
        SubseqIn(a[1..], b[1..], x);
      }
    } else {
      SubseqIn(a, b[1..], x);
    }
  }

  /** A loop that appends each value and re-raises the first exception:
      all the values, or the first error. */
  function Collect<T>(rs: seq<Result<T>>): (r: Result<seq<T>>)
    ensures r.Ok? ==> |r.value| == |rs|
  {
    if rs == [] then Ok([])
    else
      match rs[0]
      case Err(e) => Err(e)
      case Ok(x) => Prefixed([x], Collect(rs[1..]))
  }

  /** Values already collected in front of the rest of the collection. */
  function Prefixed<T>(xs: seq<T>, r: Result<seq<T>>): Result<seq<T>> {
    if r.Ok? then Ok(xs + r.value) else r
  }

  /** The collection succeeds exactly when every item does, keeps the items
      in order, and otherwise reports the first failing item. */
  lemma {:induction false} CollectSpec<T>(rs: seq<Result<T>>)
    ensures Collect(rs).Ok? <==> forall k :: 0 <= k < |rs| ==> rs[k].Ok?
    ensures Collect(rs).Ok? ==> forall k :: 0 <= k < |rs| ==> Collect(rs).value[k] == rs[k].value
    ensures Collect(rs).Err? ==>
      exists k :: 0 <= k < |rs| && rs[k] == Err(Collect(rs).exn) && forall j :: 0 <= j < k ==> rs[j].Ok?
  {
    if rs != [] {
      CollectSpec(rs[1..]);
      if rs[0].Ok? && Collect(rs[1..]).Err? {
        var k :| 0 <= k < |rs| - 1 && rs[1..][k] == Err(Collect(rs[1..]).exn) && forall j :: 0 <= j < k ==> rs[1..][j].Ok?;
        assert rs[k + 1] == Err(Collect(rs).exn);
        assert forall j :: 0 <= j < k + 1 ==> rs[j].Ok? by {
          forall j | 0 <= j < k + 1 ensures rs[j].Ok? {
            if j > 0 {
              assert rs[j] == rs[1..][j - 1];
            }
          }
        }
      }
      if Collect(rs).Ok? {
        forall k | 0 <= k < |rs| ensures Collect(rs).value[k] == rs[k].value {
          if k > 0 {
            assert rs[k] == rs[1..][k - 1];
          }
        }
      }
      if forall k :: 0 <= k < |rs| ==> rs[k].Ok? {
        assert forall k :: 0 <= k < |rs| - 1 ==> rs[1..][k] == rs[k + 1];
      }
    }
  }

  /** One item of a collection that stops after m items. */
  lemma CollectTakeStep<T>(rs: seq<Result<T>>, m: nat)
    requires rs != [] && m >= 1
    ensures Collect(Take(rs, m)) == match rs[0]
      case Err(e) => Err(e)
      case Ok(x) => Prefixed([x], Collect(Take(rs[1..], m - 1)))
  {
    var t := Take(rs, m);
    assert t[0] == rs[0];
    assert t[1..] == Take(rs[1..], m - 1);
  }

  lemma PrefixedEmpty<T>(r: Result<seq<T>>)
    ensures Prefixed([], r) == r
  {
    if r.Ok? {
      assert [] + r.value == r.value;
    }
  }

  /** Prefixing twice is prefixing once with the concatenation. */
  lemma PrefixedTwice<T>(a: seq<T>, b: seq<T>, r: Result<seq<T>>)
    ensures Prefixed(a, Prefixed(b, r)) == Prefixed(a + b, r)
  {
    if r.Ok? {
      assert a + (b + r.value) == (a + b) + r.value;
    }
  }

  /** The `[g(x) for x in xs if ...]` shape: the values `f` gives, in order,
      skipping the items it gives nothing for. */
  function FilterMap<T, U>(xs: seq<T>, f: T -> Option<U>): (r: seq<U>)
    ensures |r| <= |xs|
  {
    if xs == [] then [] else f(xs[0]).ToSeq() + FilterMap(xs[1..], f)
  }

  lemma {:induction false} FilterMapAppend<T, U>(a: seq<T>, b: seq<T>, f: T -> Option<U>)
    ensures FilterMap(a + b, f) == FilterMap(a, f) + FilterMap(b, f)
  {
    if a != [] {
      assert (a + b)[1..] == a[1..] + b;
      FilterMapAppend(a[1..], b, f);
    } else {
      assert a + b == b;
    }
  }

  /** One item further: the loop step of a filter. */
  lemma FilterMapSnoc<T, U>(xs: seq<T>, f: T -> Option<U>, i: nat)
    requires i < |xs|
    ensures FilterMap(xs[..i + 1], f) == FilterMap(xs[..i], f) + f(xs[i]).ToSeq()
  {
    assert xs[..i + 1] == xs[..i] + [xs[i]];
    FilterMapAppend(xs[..i], [xs[i]], f);
    assert FilterMap([xs[i]], f) == f(xs[i]).ToSeq() + FilterMap([xs[i]][1..], f);
  }

  /** Every value comes from an item, and every item that gives a value
      contributes it. */
  lemma {:induction false} FilterMapSpec<T, U>(xs: seq<T>, f: T -> Option<U>)
    ensures forall y :: y in FilterMap(xs, f) ==> exists i :: 0 <= i < |xs| && f(xs[i]) == Some(y)
    ensures forall i :: 0 <= i < |xs| && f(xs[i]).Some? ==> f(xs[i]).value in FilterMap(xs, f)
  {
    if xs != [] {
      FilterMapSpec(xs[1..], f);
      var r := FilterMap(xs, f);
      assert r == f(xs[0]).ToSeq() + FilterMap(xs[1..], f);
      forall y | y in r ensures exists i :: 0 <= i < |xs| && f(xs[i]) == Some(y) {
        if y in FilterMap(xs[1..], f) {
          var i :| 0 <= i < |xs[1..]| && f(xs[1..][i]) == Some(y);
          assert xs[i + 1] == xs[1..][i];
        } else {
          assert f(xs[0]) == Some(y);
        }
      }
      forall i | 0 <= i < |xs| && f(xs[i]).Some? ensures f(xs[i]).value in r {
        if i > 0 {
          assert xs[i] == xs[1..][i - 1];
        }
      }
    }
  }
  /** The `[x for x in xs if p(x)]` shape: the items that satisfy p, in order. */
  function Filter<T>(xs: seq<T>, p: T -> bool): (r: seq<T>)
    ensures |r| <= |xs|
  {
    if xs == [] then [] else (if p(xs[0]) then [xs[0]] else []) + Filter(xs[1..], p)
  }

  lemma {:induction false} FilterAppend<T>(a: seq<T>, b: seq<T>, p: T -> bool)
    ensures Filter(a + b, p) == Filter(a, p) + Filter(b, p)
  {
    if a != [] {
      assert (a + b)[1..] == a[1..] + b;
      FilterAppend(a[1..], b, p);
    } else {
      assert a + b == b;
    }
  }

  /** One item further: the loop step of a filter. */
  lemma FilterSnoc<T>(xs: seq<T>, p: T -> bool, i: nat)
    requires i < |xs|
    ensures Filter(xs[..i + 1], p) == Filter(xs[..i], p) + (if p(xs[i]) then [xs[i]] else [])
  {
    assert xs[..i + 1] == xs[..i] + [xs[i]];
    FilterAppend(xs[..i], [xs[i]], p);
    assert Filter([xs[i]], p) == (if p(xs[i]) then [xs[i]] else []) + Filter([xs[i]][1..], p);
  }

  /** Filtering a prefix gives a prefix of the filtered sequence. */
  lemma FilterPrefix<T>(xs: seq<T>, p: T -> bool, i: nat)
    requires i <= |xs|
    ensures var f := Filter(xs[..i], p); |f| <= |Filter(xs, p)| && Filter(xs, p)[..|f|] == f
  {
    assert xs == xs[..i] + xs[i..];
    FilterAppend(xs[..i], xs[i..], p);
  }

  /** The filtered items are an in-order subsequence made of exactly the
      items that satisfy p. */
  lemma {:induction false} FilterSpec<T>(xs: seq<T>, p: T -> bool)
    ensures Subseq(Filter(xs, p), xs)
    ensures forall x :: x in Filter(xs, p) <==> x in xs && p(x)
  {
    if xs != [] {
      FilterSpec(xs[1..], p);
      var rest := Filter(xs[1..], p);
      if p(xs[0]) {
        assert Filter(xs, p) == [xs[0]] + rest;
        assert ([xs[0]] + rest)[1..] == rest;
      } else {
        assert Filter(xs, p) == rest;
      }
      assert xs == [xs[0]] + xs[1..];
    }
  }
}
