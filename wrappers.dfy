/** Optional values, results and the error kinds raised by the pipeline. */
module Wrappers {

  /** Python's `X | None`. */
  datatype Option<+T> = None | Some(value: T) {
    function GetOr(default: T): T {
      match this
      case Some(v) => v
      case None => default
    }
  }

  /** A value or the exception that replaced it. */
  datatype Result<+T, +E> = Success(value: T) | Failure(error: E)

  /** The exceptions that escape the modelled code, by Python class. */
  datatype Error =
    | RequestError      // requests.RequestException (network, HTTP status, JSON body)
    | ValidationError   // pydantic.ValidationError
    | RuntimeError      // a provider page with status != "SUCCESS"; a timer stopped before start
    | ValueError        // RateLimiter arguments; a Retry-After header that is not a number
    | TypeError         // unsupported annotation; Decimal divided by float; wrong argument count
    | AttributeError    // a missing attribute on a configuration item or on None
    | IndexError        // a delay schedule `(...,)` read at index -2
    | InvalidOperation  // decimal.InvalidOperation: text that is not a number
    | GoogleApiError    // google.api_core exceptions raised by the BigQuery client
    | OutOfCalls        // the model's bound on HTTP calls ran out (see README)

  function Max(a: int, b: int): int { if a < b then b else a }
  function Min(a: int, b: int): int { if a < b then a else b }

  /** `[f(x) for x in xs]` where `f` may raise: the first exception wins. */
  function MapAll<A, B>(f: A -> Result<B, Error>, xs: seq<A>): (r: Result<seq<B>, Error>)
    ensures r.Success? <==> forall i | 0 <= i < |xs| :: f(xs[i]).Success?
    ensures r.Success? ==> |r.value| == |xs| && forall i | 0 <= i < |xs| :: r.value[i] == f(xs[i]).value
    ensures r.Failure? ==> exists i | 0 <= i < |xs| ::
      f(xs[i]) == Failure(r.error) && forall j | 0 <= j < i :: f(xs[j]).Success?
  {
    if xs == [] then Success([])
    else match f(xs[0])
      case Failure(e) => Failure(e)
      case Success(y) =>
        var rest := MapAll(f, xs[1..]);
        if rest.Failure? then
          var i :| 0 <= i < |xs[1..]| && f(xs[1..][i]) == Failure(rest.error)
                   && forall j | 0 <= j < i :: f(xs[1..][j]).Success?;
          FirstFailureShifts(f, xs, i);
          rest
        else Success([y] + rest.value)
  }

  /** The first failure of the tail, behind a head that succeeds, is the
      first failure of the whole list. */
  lemma FirstFailureShifts<A, B>(f: A -> Result<B, Error>, xs: seq<A>, i: nat)
    requires 0 <= i < |xs| - 1 && f(xs[0]).Success?
    requires forall j | 0 <= j < i :: f(xs[1..][j]).Success?
    ensures f(xs[i + 1]) == f(xs[1..][i])
    ensures forall j | 0 <= j < i + 1 :: f(xs[j]).Success?
  {
    forall j | 0 <= j < i + 1
      ensures f(xs[j]).Success?
    {
      if j > 0 {
        assert xs[j] == xs[1..][j - 1];
      }
    }
  }

  /** Mapping a concatenation: it succeeds exactly when both halves do, with
      the two results concatenated. */
  lemma {:induction false} MapAllAppend<A, B>(f: A -> Result<B, Error>, xs: seq<A>, ys: seq<A>)
    ensures MapAll(f, xs + ys).Success? <==> MapAll(f, xs).Success? && MapAll(f, ys).Success?
    ensures MapAll(f, xs + ys).Success? ==> MapAll(f, xs + ys).value == MapAll(f, xs).value + MapAll(f, ys).value
    decreases |xs|
  {
    if xs == [] {
      assert xs + ys == ys;
    } else {
      assert (xs + ys)[0] == xs[0] && (xs + ys)[1..] == xs[1..] + ys;
      MapAllAppend(f, xs[1..], ys);
      if f(xs[0]).Success? && MapAll(f, xs[1..] + ys).Success? {
        var y := f(xs[0]).value;
        assert [y] + (MapAll(f, xs[1..]).value + MapAll(f, ys).value)
            == ([y] + MapAll(f, xs[1..]).value) + MapAll(f, ys).value;
      }
    }
  }

  /** The loop `for x in xs: out.append(f(x))`. */
  method MapEach<A, B>(f: A -> Result<B, Error>, xs: seq<A>) returns (r: Result<seq<B>, Error>)
    ensures r == MapAll(f, xs)
  {
    var out: seq<B> := [];
    assert xs[0..] == xs;
    assert MapAll(f, xs).Success? ==> out + MapAll(f, xs).value == MapAll(f, xs).value;
    for i := 0 to |xs|
      invariant MapAll(f, xs) == if MapAll(f, xs[i..]).Success? then Success(out + MapAll(f, xs[i..]).value) else MapAll(f, xs[i..])
    {
      assert xs[i..][1..] == xs[i + 1..];
      var y := f(xs[i]);
      if y.Failure? {
        return Failure(y.error);
      }
      var rest := MapAll(f, xs[i + 1..]);
      if rest.Success? {
        assert MapAll(f, xs[i..]).value == [y.value] + rest.value;
        assert out + ([y.value] + rest.value) == (out + [y.value]) + rest.value;
      }
      out := out + [y.value];
    }
    assert xs[|xs|..] == [];
    assert out + [] == out;
    return Success(out);
  }
  /** `[x for x in xs if p(x)]`. */
  function Filter<A>(p: A -> bool, xs: seq<A>): (r: seq<A>)
    ensures |r| <= |xs|
    ensures forall i | 0 <= i < |r| :: p(r[i])
  {
    if xs == [] then [] else (if p(xs[0]) then [xs[0]] else []) + Filter(p, xs[1..])
  }

  /** A filter keeps order: appending inputs appends what is kept. */
  lemma {:induction false} FilterAppend<A>(p: A -> bool, xs: seq<A>, ys: seq<A>)
    ensures Filter(p, xs + ys) == Filter(p, xs) + Filter(p, ys)
    decreases |xs|
  {
    if xs == [] {
      assert xs + ys == ys;
    } else {
      assert (xs + ys)[1..] == xs[1..] + ys;
      FilterAppend(p, xs[1..], ys);
    }
  }

  /** What a filter keeps is exactly what passes the test. */
  lemma {:induction false} FilterIn<A>(p: A -> bool, xs: seq<A>, x: A)
    ensures x in Filter(p, xs) <==> x in xs && p(x)
    decreases |xs|
  {
    if xs != [] {
      FilterIn(p, xs[1..], x);
      assert xs == [xs[0]] + xs[1..];
    }
  }

  /** No element occurs twice. */
  predicate Distinct<A(==)>(xs: seq<A>) {
    forall i, j | 0 <= i < j < |xs| :: xs[i] != xs[j]
  }

  /** A filter of a sequence without repeats has none either. */
  lemma {:induction false} FilterDistinct<A>(p: A -> bool, xs: seq<A>)
    requires Distinct(xs)
    ensures Distinct(Filter(p, xs))
    decreases |xs|
  {
    if xs != [] {
      FilterDistinct(p, xs[1..]);
      FilterIn(p, xs[1..], xs[0]);
    }
  }

  /** `out` followed by what `rest` produced; an error wins. */
  function Prepend<B>(out: seq<B>, rest: Result<seq<B>, Error>): (r: Result<seq<B>, Error>)
    ensures r.Success? <==> rest.Success?
  {
    if rest.Success? then Success(out + rest.value) else rest
  }

  lemma PrependPrepend<B>(a: seq<B>, b: seq<B>, rest: Result<seq<B>, Error>)
    ensures Prepend(a, Prepend(b, rest)) == Prepend(a + b, rest)
  {
    if rest.Success? {
      assert a + (b + rest.value) == (a + b) + rest.value;
    }
  }

  /** One element of a filtered map: skipped, raising, or put in front. */
  lemma FilterMapStep<A, B>(p: A -> bool, f: A -> Result<B, Error>, xs: seq<A>, i: nat)
    requires i < |xs|
    ensures MapAll(f, Filter(p, xs[i..])) ==
      if !p(xs[i]) then MapAll(f, Filter(p, xs[i + 1..]))
      else if f(xs[i]).Failure? then Failure(f(xs[i]).error)
      else Prepend([f(xs[i]).value], MapAll(f, Filter(p, xs[i + 1..])))
  {
    assert xs[i..][1..] == xs[i + 1..];
    var kept := Filter(p, xs[i..]);
    if p(xs[i]) {
      assert kept == [xs[i]] + Filter(p, xs[i + 1..]);
      assert kept[0] == xs[i] && kept[1..] == Filter(p, xs[i + 1..]);
    } else {
      assert kept == Filter(p, xs[i + 1..]);
    }
  }

  /** The loop `for x in xs: if p(x): out.append(f(x))`, where `f` may raise. */
  method MapWhereEach<A, B>(p: A -> bool, f: A -> Result<B, Error>, xs: seq<A>) returns (r: Result<seq<B>, Error>)
    ensures r == MapAll(f, Filter(p, xs))
  {
    var out: seq<B> := [];
    assert xs[0..] == xs;
    if MapAll(f, Filter(p, xs)).Success? {
      assert [] + MapAll(f, Filter(p, xs)).value == MapAll(f, Filter(p, xs)).value;
    }
    for i := 0 to |xs|
      invariant MapAll(f, Filter(p, xs)) == Prepend(out, MapAll(f, Filter(p, xs[i..])))
    {
      FilterMapStep(p, f, xs, i);
      if p(xs[i]) {
        var y := f(xs[i]);
        if y.Failure? {
          return Failure(y.error);
        }
        PrependPrepend(out, [y.value], MapAll(f, Filter(p, xs[i + 1..])));
        out := out + [y.value];
      }
    }
    assert xs[|xs|..] == [];
    assert out + [] == out;
    return Success(out);
  }


}
