/** Python-semantics helpers shared by the rest of the model: exceptions as values,
    negative indexing, `list * n`, list flattening, `del xs[i]`, insertion-ordered
    de-duplication (what a dict built from a list keeps), `deque.rotate` and
    `itertools.compress`. */
module PyCore {

  /** The exceptions the modelled code can raise on bad input. */
  datatype PyError = IndexError | KeyError | ZeroDivisionError | AttributeError | ValueError

  /** A Python call either returns a value or raises. */
  datatype Result<+T> = Ok(value: T) | Err(error: PyError) {
    predicate IsFailure() { Err? }

    function PropagateFailure<U>(): Result<U>
      requires Err?
    {
      Err(error)
    }

    function Extract(): T
      requires Ok?
    {
      value
    }
  }

  /** `None` or a value. */
  datatype Option<+T> = None | Some(value: T)

  /** A Python loop that builds a list by calling `f` on each item in order: the first
      call that raises ends the loop with that error. */
  function MapResult<T, U>(f: T -> Result<U>, xs: seq<T>): (r: Result<seq<U>>)
    ensures r.Ok? <==> forall i :: 0 <= i < |xs| ==> f(xs[i]).Ok?
    ensures r.Ok? ==> |r.value| == |xs| && forall i :: 0 <= i < |xs| ==> r.value[i] == f(xs[i]).value
    ensures r.Err? ==> exists i :: 0 <= i < |xs| && f(xs[i]) == Err(r.error) && forall j :: 0 <= j < i ==> f(xs[j]).Ok?
    decreases |xs|
  {
    if |xs| == 0 then Ok([])
    else
      assert forall i :: 0 <= i < |xs| - 1 ==> xs[1..][i] == xs[i + 1];
      match f(xs[0])
      case Err(e) => Err(e)
      case Ok(y) =>
        match MapResult(f, xs[1..])
        case Err(e) =>
          var k :| 0 <= k < |xs| - 1 && f(xs[1..][k]) == Err(e) && forall j :: 0 <= j < k ==> f(xs[1..][j]).Ok?;
          assert f(xs[k + 1]) == Err(e) && forall j :: 0 <= j < k + 1 ==> f(xs[j]).Ok?;
          Err(e)
        case Ok(rest) => Ok([y] + rest)
  }

  /** The position Python's `xs[i]` reads in a list of length `len`: a negative `i`
      counts from the end; anything else raises `IndexError`. */
  function PyIndex(i: int, len: nat): (r: Option<nat>)
    ensures r.Some? <==> -(len as int) <= i < len
    ensures r.Some? ==> r.value < len && r.value % len == i % len
  {
    if 0 <= i < len then
      ModOfMultiple(0, i, len);
      Some(i)
    else if -(len as int) <= i < 0 then
      ModOfMultiple(0, i + len, len);
      ModOfMultiple(-1, i + len, len);
      Some(i + len)
    else None
  }

  /** Python `xs[i]`. */
  function PyGet<T>(xs: seq<T>, i: int): (r: Result<T>)
    ensures r.Ok? <==> -|xs| <= i < |xs|
    ensures r.Ok? ==> r.value == xs[i % |xs|]
  {
    match PyIndex(i, |xs|)
    case Some(k) => Ok(xs[k])
    case None => Err(IndexError)
  }

  /** Python `del xs[i]`: a negative `i` removes the item `-i` places from the end. */
  function PyDel<T>(xs: seq<T>, i: int): (r: Result<seq<T>>)
    ensures r.Ok? <==> -|xs| <= i < |xs|
    ensures r.Ok? ==> |r.value| == |xs| - 1
    ensures 0 <= i < |xs| ==> r == Ok(xs[..i] + xs[i + 1..])
    ensures -|xs| <= i < 0 ==> r == Ok(xs[..|xs| + i] + xs[|xs| + i + 1..])
  {
    match PyIndex(i, |xs|)
    case Some(k) => Ok(xs[..k] + xs[k + 1..])
    case None => Err(IndexError)
  }

  /** Python `xs * n`: `n` copies of `xs` back to back, and no copy when `n <= 0`. */
  function Repeat<T>(xs: seq<T>, n: int): (r: seq<T>)
    ensures |r| == if n > 0 then n * |xs| else 0
    ensures forall i :: 0 <= i < |r| ==> r[i] == xs[i % |xs|]
    decreases n
  {
    if n <= 0 then []
    else
      var rest := Repeat(xs, n - 1);
      RepeatStep(xs, rest);
      MulStep(n, |xs|);
      xs + rest
  }

  /** One more copy in front of copies of `xs` is still copies of `xs`. */
  lemma RepeatStep<T>(xs: seq<T>, rest: seq<T>)
    requires |xs| == 0 ==> |rest| == 0
    requires forall i :: 0 <= i < |rest| ==> rest[i] == xs[i % |xs|]
    ensures forall i :: 0 <= i < |xs + rest| ==> (xs + rest)[i] == xs[i % |xs|]
  {
    var m := |xs|;
    var r := xs + rest;
    forall i | 0 <= i < |r| ensures r[i] == xs[i % m] {
      if i < m {
        assert i % m == i;
      } else {
        ModShift(i - m, m);
        assert r[i] == rest[i - m];
      }
    }
  }

  lemma MulStep(n: int, m: int)
    ensures n * m == (n - 1) * m + m
  {
  }

  lemma ModShift(i: int, n: nat)
    requires 0 <= i && 0 < n
    ensures (i + n) % n == i % n
  {
    var q := i / n;
    assert i == q * n + i % n;
    assert i + n == (q + 1) * n + i % n;
    ModOfMultiple(q + 1, i % n, n);
  }

  /** Concatenation of a list of lists, in order. */
  function Flatten<T>(xss: seq<seq<T>>): (r: seq<T>)
    ensures |xss| == 0 ==> r == []
    decreases |xss|
  {
    if |xss| == 0 then [] else Flatten(xss[..|xss| - 1]) + xss[|xss| - 1]
  }

  lemma {:induction false} FlattenAppend<T>(a: seq<seq<T>>, b: seq<seq<T>>)
    ensures Flatten(a + b) == Flatten(a) + Flatten(b)
    decreases |b|
  {
    if |b| == 0 {
      assert a + b == a;
    } else {
      var b' := b[..|b| - 1];
      assert (a + b)[..|a + b| - 1] == a + b';
      FlattenAppend(a, b');
    }
  }

  lemma FlattenSingle<T>(x: seq<T>)
    ensures Flatten([x]) == x
  {
    assert [x][..0] == [];
  }

  lemma FlattenCons<T>(x: seq<T>, xs: seq<seq<T>>)
    ensures Flatten([x] + xs) == x + Flatten(xs)
  {
    FlattenAppend([x], xs);
    FlattenSingle(x);
  }

  /** Sum of a list of reals, Python `sum` over exact rationals. */
  function SumReal(xs: seq<real>): real
    decreases |xs|
  {
    if |xs| == 0 then 0.0 else SumReal(xs[..|xs| - 1]) + xs[|xs| - 1]
  }

  /** Sum of a list of integers. */
  function SumInt(xs: seq<int>): int
    decreases |xs|
  {
    if |xs| == 0 then 0 else SumInt(xs[..|xs| - 1]) + xs[|xs| - 1]
  }

  lemma {:induction false} SumIntAppend(a: seq<int>, b: seq<int>)
    ensures SumInt(a + b) == SumInt(a) + SumInt(b)
    decreases |b|
  {
    if |b| == 0 {
      assert a + b == a;
    } else {
      assert (a + b)[..|a + b| - 1] == a + b[..|b| - 1];
      SumIntAppend(a, b[..|b| - 1]);
    }
  }

  /** The sum of a list depends only on its elements, not on their order. */
  lemma {:induction false} SumIntPermutation(a: seq<int>, b: seq<int>)
    requires multiset(a) == multiset(b)
    ensures SumInt(a) == SumInt(b)
    decreases |a|
  {
    if |a| == 0 {
      assert |b| == |multiset(b)| == 0;
    } else {
      var x := a[|a| - 1];
      assert x in multiset(b);
      var k :| 0 <= k < |b| && b[k] == x;
      var a' := a[..|a| - 1];
      var b' := b[..k] + b[k + 1..];
      assert a == a' + [x];
      assert b == b[..k] + [x] + b[k + 1..];
      assert multiset(a) == multiset(a') + multiset{x};
      assert multiset(b) == multiset(b[..k]) + multiset{x} + multiset(b[k + 1..]);
      assert multiset(b') == multiset(b[..k]) + multiset(b[k + 1..]);
      assert multiset(a') == multiset(a) - multiset{x};
      assert multiset(b') == multiset(b) - multiset{x};
      SumIntPermutation(a', b');
      SumIntAppend(a', [x]);
      SumIntAppend(b[..k] + [x], b[k + 1..]);
      SumIntAppend(b[..k], [x]);
      SumIntAppend(b[..k], b[k + 1..]);
      assert [x][..0] == [];
    }
  }

  /** The set of the elements of a list. */
  function Elems<T>(xs: seq<T>): set<T>
  {
    set x | x in xs
  }

  /** No element occurs twice. */
  predicate Distinct<T(==)>(xs: seq<T>)
  {
    forall i, j :: 0 <= i < j < |xs| ==> xs[i] != xs[j]
  }

  /** The keys a Python dict keeps when built from `xs`: each element once, in order of
      first occurrence. */
  function Dedup<T(==)>(xs: seq<T>): (r: seq<T>)
    ensures Distinct(r)
    ensures forall i :: 0 <= i < |xs| ==> xs[i] in r
    ensures forall i :: 0 <= i < |r| ==> r[i] in xs
    ensures |r| <= |xs|
    ensures forall i, j :: 0 <= i < j < |r| ==> IndexOf(xs, r[i]) < IndexOf(xs, r[j])
    decreases |xs|
  {
    if |xs| == 0 then []
    else
      var xs' := xs[..|xs| - 1];
      var d := Dedup(xs');
      var x := xs[|xs| - 1];
      assert xs == xs' + [x];
      DedupOrderStep(xs, d);
      if x in d then d else d + [x]
  }

  /** First occurrences keep their order when one more item is appended, and an item new
      to the list has its first occurrence after all of them. */
  lemma DedupOrderStep<T>(xs: seq<T>, d: seq<T>)
    requires |xs| > 0
    requires forall i :: 0 <= i < |xs| - 1 ==> xs[i] in d
    requires forall i :: 0 <= i < |d| ==> d[i] in xs[..|xs| - 1]
    requires forall i, j :: 0 <= i < j < |d| ==> IndexOf(xs[..|xs| - 1], d[i]) < IndexOf(xs[..|xs| - 1], d[j])
    ensures forall i, j :: 0 <= i < j < |d| ==> IndexOf(xs, d[i]) < IndexOf(xs, d[j])
    ensures xs[|xs| - 1] !in d ==>
              var e := d + [xs[|xs| - 1]];
              forall i, j :: 0 <= i < j < |e| ==> IndexOf(xs, e[i]) < IndexOf(xs, e[j])
  {
    var xs' := xs[..|xs| - 1];
    var x := xs[|xs| - 1];
    forall y | y in xs' ensures IndexOf(xs, y) == IndexOf(xs', y) {
      IndexOfPrefix(xs, xs', y);
    }
    if x !in d {
      assert x !in xs';
      assert IndexOf(xs, x) == |xs| - 1;
      var e := d + [x];
      forall i, j | 0 <= i < j < |e| ensures IndexOf(xs, e[i]) < IndexOf(xs, e[j]) {
        if j < |d| {
          assert e[i] == d[i] && e[j] == d[j];
        } else {
          assert e[i] == d[i] && e[j] == x;
        }
      }
    }
  }

  /** The first occurrence of an item of a prefix is the same in the whole list. */
  lemma IndexOfPrefix<T>(xs: seq<T>, pre: seq<T>, y: T)
    requires pre <= xs && y in pre
    ensures y in xs && IndexOf(xs, y) == IndexOf(pre, y)
  {
    var i := IndexOf(pre, y);
    var k := IndexOf(xs, y);
    assert xs[i] == y;
  }

  /** Python `xs.index(x)`: the position of the first occurrence. */
  function IndexOf<T(==)>(xs: seq<T>, x: T): (i: nat)
    requires x in xs
    ensures i < |xs| && xs[i] == x
    ensures forall j :: 0 <= j < i ==> xs[j] != x
    decreases |xs|
  {
    if xs[0] == x then 0 else 1 + IndexOf(xs[1..], x)
  }

  lemma IndexOfDistinct<T>(xs: seq<T>, i: nat)
    requires Distinct(xs) && i < |xs|
    ensures IndexOf(xs, xs[i]) == i
  {
  }

  /** Python `deque.rotate(-k)`: element `j` of the result is element `j + k` of `xs`,
      wrapping round. */
  function RotateLeft<T>(xs: seq<T>, k: int): (r: seq<T>)
    ensures |r| == |xs|
    ensures forall j :: 0 <= j < |r| ==> r[j] == xs[(j + k) % |xs|]
  {
    if |xs| == 0 then []
    else
      var s := k % |xs|;
      var r := xs[s..] + xs[..s];
      assert forall j :: 0 <= j < |r| ==> r[j] == xs[(j + k) % |xs|] by {
        forall j | 0 <= j < |r| ensures r[j] == xs[(j + k) % |xs|] {
          ModAddLemma(j, k, |xs|);
        }
      }
      r
  }

  lemma ModAddLemma(j: int, k: int, n: nat)
    requires 0 <= j < n
    ensures (j + k % n) % n == (j + k) % n
    ensures j + k % n < n ==> (j + k) % n == j + k % n
    ensures j + k % n >= n ==> (j + k) % n == j + k % n - n
  {
    var q := k / n;
    var s := k % n;
    assert k == q * n + s;
    if j + s < n {
      ModOfMultiple(0, j + s, n);
      ModOfMultiple(q, j + s, n);
    } else {
      assert j + s == 1 * n + (j + s - n);
      ModOfMultiple(1, j + s - n, n);
      assert j + k == (q + 1) * n + (j + s - n);
      ModOfMultiple(q + 1, j + s - n, n);
    }
  }

  lemma ModOfMultiple(q: int, r: int, n: nat)
    requires 0 <= r < n
    ensures (q * n + r) % n == r
  {
    var m := q * n + r;
    var d := m / n;
    assert m == d * n + m % n;
    assert (d - q) * n == r - m % n;
    MulBounds(d - q, n);
  }

  lemma MulBounds(a: int, n: nat)
    ensures a >= 1 ==> a * n >= n
    ensures a <= -1 ==> a * n <= -(n as int)
  {
  }

  /** The positions of the truthy (non-zero) selectors, in increasing order. */
  function Positions(sel: seq<int>): (r: seq<nat>)
    ensures forall i :: 0 <= i < |r| ==> r[i] < |sel| && sel[r[i]] != 0
    ensures forall i, j :: 0 <= i < j < |r| ==> r[i] < r[j]
    ensures forall p :: 0 <= p < |sel| && sel[p] != 0 ==> p in r
    decreases |sel|
  {
    if |sel| == 0 then []
    else
      var n := |sel| - 1;
      Positions(sel[..n]) + (if sel[n] != 0 then [n] else [])
  }

  /** Python `itertools.compress(data, selectors)`: the data items whose selector is truthy,
      stopping at the end of the shorter input. */
  function Compress<T>(data: seq<T>, sel: seq<int>): seq<T>
    decreases |data|
  {
    var n := if |data| < |sel| then |data| else |sel|;
    if n == 0 then []
    else Compress(data[..n - 1], sel[..n - 1]) + (if sel[n - 1] != 0 then [data[n - 1]] else [])
  }

  /** `compress` picks the data items at the selectors' truthy positions, in order. */
  lemma {:induction false} CompressPicks<T>(data: seq<T>, sel: seq<int>)
    requires |data| == |sel|
    ensures |Compress(data, sel)| == |Positions(sel)|
    ensures forall i :: 0 <= i < |Positions(sel)| ==> Compress(data, sel)[i] == data[Positions(sel)[i]]
    decreases |data|
  {
    if |data| > 0 {
      CompressPicks(data[..|data| - 1], sel[..|sel| - 1]);
    }
  }

  /** Two increasing lists with the same elements are equal. */
  lemma {:induction false} IncreasingUnique(a: seq<nat>, b: seq<nat>)
    requires forall i, j :: 0 <= i < j < |a| ==> a[i] < a[j]
    requires forall i, j :: 0 <= i < j < |b| ==> b[i] < b[j]
    requires forall x :: x in a <==> x in b
    ensures a == b
    decreases |a| + |b|
  {
    if |a| > 0 && |b| > 0 {
      IncreasingHead(a, b);
      IncreasingHead(b, a);
      IncreasingTail(a, b);
      IncreasingUnique(a[1..], b[1..]);
      assert a == [a[0]] + a[1..] && b == [b[0]] + b[1..];
    } else {
      SameMembersEmpty(a, b);
    }
  }

  lemma SameMembersEmpty(a: seq<nat>, b: seq<nat>)
    requires forall x :: x in a <==> x in b
    ensures |a| == 0 <==> |b| == 0
  {
    if |a| > 0 {
      assert a[0] in b;
    }
    if |b| > 0 {
      assert b[0] in a;
    }
  }

  /** The head of an increasing list is below every other element of it, so a list with
      the same elements cannot start lower. */
  lemma IncreasingHead(a: seq<nat>, b: seq<nat>)
    requires forall i, j :: 0 <= i < j < |a| ==> a[i] < a[j]
    requires forall x :: x in a <==> x in b
    requires |a| > 0 && |b| > 0
    ensures a[0] <= b[0]
  {
    assert b[0] in a;
    var k :| 0 <= k < |a| && a[k] == b[0];
    assert k == 0 || a[0] < a[k];
  }

  /** With equal heads, the tails of two increasing lists with the same elements have the
      same elements. */
  lemma IncreasingTail(a: seq<nat>, b: seq<nat>)
    requires forall i, j :: 0 <= i < j < |a| ==> a[i] < a[j]
    requires forall i, j :: 0 <= i < j < |b| ==> b[i] < b[j]
    requires forall x :: x in a <==> x in b
    requires |a| > 0 && |b| > 0 && a[0] == b[0]
    ensures forall x :: x in a[1..] <==> x in b[1..]
  {
    forall x ensures x in a[1..] ==> x in b[1..] {
      TailMember(a, b, x);
    }
    forall x ensures x in b[1..] ==> x in a[1..] {
      TailMember(b, a, x);
    }
  }

  lemma TailMember(a: seq<nat>, b: seq<nat>, x: nat)
    requires forall i, j :: 0 <= i < j < |a| ==> a[i] < a[j]
    requires forall x :: x in a <==> x in b
    requires |a| > 0 && |b| > 0 && a[0] == b[0]
    ensures x in a[1..] ==> x in b[1..]
  {
    if x in a[1..] {
      var k :| 0 <= k < |a[1..]| && a[1..][k] == x;
      assert a[0] < a[k + 1];
      assert x in b;
      var m :| 0 <= m < |b| && b[m] == x;
      assert b[1..][m - 1] == x;
    }
  }

  /** A Python dict literal as its entries in insertion order. */
  type Table<K, V> = seq<(K, V)>

  function KeysOf<K, V>(t: Table<K, V>): (r: seq<K>)
    ensures |r| == |t| && forall i :: 0 <= i < |t| ==> r[i] == t[i].0
  {
    seq(|t|, i requires 0 <= i < |t| => t[i].0)
  }

  function ValuesOf<K, V>(t: Table<K, V>): (r: seq<V>)
    ensures |r| == |t| && forall i :: 0 <= i < |t| ==> r[i] == t[i].1
  {
    seq(|t|, i requires 0 <= i < |t| => t[i].1)
  }

  /** `d[key]`: the value of the first entry with that key; a missing key raises. */
  function Lookup<K(==), V>(t: Table<K, V>, key: K): (r: Result<V>)
    ensures r.Err? <==> key !in KeysOf(t)
    ensures r.Err? ==> r.error == KeyError
    ensures r.Ok? ==> exists i :: 0 <= i < |t| && t[i] == (key, r.value)
    decreases |t|
  {
    if |t| == 0 then Err(KeyError)
    else if t[0].0 == key then Ok(t[0].1)
    else
      var r := Lookup(t[1..], key);
      assert KeysOf(t) == [t[0].0] + KeysOf(t[1..]);
      assert r.Ok? ==> exists i :: 0 <= i < |t[1..]| && t[1..][i] == (key, r.value);
      r
  }

  /** With distinct keys every entry is found under its own key. */
  lemma {:induction false} LookupDistinct<K, V>(t: Table<K, V>, i: nat)
    requires i < |t| && Distinct(KeysOf(t))
    ensures Lookup(t, t[i].0) == Ok(t[i].1)
    decreases i
  {
    if i > 0 {
      assert KeysOf(t)[0] != KeysOf(t)[i];
      assert KeysOf(t[1..]) == KeysOf(t)[1..];
      LookupDistinct(t[1..], i - 1);
    }
  }

  /** The positions of the truthy selectors are the increasing list of exactly those
      positions. */
  lemma PositionsOf(sel: seq<int>, ps: seq<nat>)
    requires forall i, j :: 0 <= i < j < |ps| ==> ps[i] < ps[j]
    requires forall p :: 0 <= p < |sel| ==> (sel[p] != 0 <==> p in ps)
    requires forall i :: 0 <= i < |ps| ==> ps[i] < |sel|
    ensures Positions(sel) == ps
  {
    var r := Positions(sel);
    forall x ensures x in r <==> x in ps {
      if x in r {
        var i :| 0 <= i < |r| && r[i] == x;
      }
    }
    IncreasingUnique(r, ps);
  }

  /** `d[key] = value`: an existing key keeps its place and takes the new value; a new key
      goes at the end. */
  function Store<K(==), V>(t: Table<K, V>, key: K, value: V): (r: Table<K, V>)
    ensures KeysOf(r) == if key in KeysOf(t) then KeysOf(t) else KeysOf(t) + [key]
    ensures key !in KeysOf(t) ==> r == t + [(key, value)]
    decreases |t|
  {
    if |t| == 0 then [(key, value)]
    else
      assert t == [t[0]] + t[1..];
      KeysCons(t[0], t[1..]);
      if t[0].0 == key then
        KeysCons((key, value), t[1..]);
        [(key, value)] + t[1..]
      else
        var rest := Store(t[1..], key, value);
        KeysCons(t[0], rest);
        [t[0]] + rest
  }

  lemma KeysCons<K, V>(e: (K, V), t: Table<K, V>)
    ensures KeysOf([e] + t) == [e.0] + KeysOf(t)
  {
  }

  /** After `d[key] = value`, `d[key]` is `value` and every other key reads as before. */
  lemma {:induction false} StoreLookup<K, V>(t: Table<K, V>, key: K, value: V, other: K)
    ensures Lookup(Store(t, key, value), key) == Ok(value)
    ensures other != key ==> Lookup(Store(t, key, value), other) == Lookup(t, other)
    decreases |t|
  {
    if |t| > 0 && t[0].0 != key {
      var r := Store(t, key, value);
      assert r[1..] == Store(t[1..], key, value);
      StoreLookup(t[1..], key, value, other);
    }
  }
}
