/** The layered-graph key search of `test_key_sig_A_star` (gp_to_kivy.py:505-552): one
    layer of candidate mode masks per measure, a path picks one mode per layer, and a
    step costs the number of pitch classes in which the two modes differ. The search is
    a label-correcting relaxation driven by a priority queue; it runs until the queue is
    empty and keeps the cheapest completed path. */
module KeySearch {
  import opened PyCore
  import opened Bits
  import opened KeyFilter

  // ---------------------------------------------------------------------------
  // Edge costs
  // ---------------------------------------------------------------------------

  /** `bin(cur_mode ^ nbr).count("1")`: the Hamming distance of two masks. */
  function EdgeCost(a: nat, b: nat): (c: nat)
    ensures c == 0 <==> a == b
  {
    XorZero(a, b);
    PopcountZero(Xor(a, b));
    Popcount(Xor(a, b))
  }

  /** The distance does not depend on the direction of the step. */
  lemma EdgeCostSymmetric(a: nat, b: nat)
    ensures EdgeCost(a, b) == EdgeCost(b, a)
  {
    forall i: nat ensures Bit(Xor(a, b), i) == Bit(Xor(b, a), i) {
      XorBit(a, b, i);
      XorBit(b, a, i);
    }
    BitsDetermine(Xor(a, b), Xor(b, a));
  }

  /** Two 12-bit masks differ in at most 12 pitch classes. */
  lemma EdgeCostBound(a: nat, b: nat)
    requires a < 4096 && b < 4096
    ensures EdgeCost(a, b) <= 12
  {
    Pow2Table();
    BitLenBound(a, 12);
    BitLenBound(b, 12);
    HammingBound(a, b);
  }

  // ---------------------------------------------------------------------------
  // The graph and its paths
  // ---------------------------------------------------------------------------

  /** `build_graph`: one dict per measure whose keys are the measure's candidates, each
      once, in first-seen order. Only the keys are modelled here; the costs the dicts
      hold live in the search's own map. */
  function BuildGraph(g: seq<seq<nat>>): (layers: seq<seq<nat>>)
    ensures |layers| == |g|
    ensures forall i :: 0 <= i < |g| ==> Distinct(layers[i]) && |layers[i]| <= |g[i]|
    ensures forall i, m :: 0 <= i < |g| ==> (m in layers[i] <==> m in g[i])
    ensures forall i :: 0 <= i < |g| ==> (|layers[i]| == 0 <==> |g[i]| == 0)
  {
    var layers := seq(|g|, i requires 0 <= i < |g| => Dedup(g[i]));
    assert forall i :: 0 <= i < |g| && |g[i]| > 0 ==> g[i][0] in layers[i];
    layers
  }

  /** A step into layer `layer`: an empty layer repeats the current mode, otherwise the
      next mode is one of the layer's candidates. */
  predicate Step(g: seq<seq<nat>>, layer: nat, a: nat, b: nat)
    requires layer < |g|
  {
    if |g[layer]| == 0 then b == a else b in g[layer]
  }

  /** A path as the search builds it. The seeds are the candidates of layer 0 and sit at
      position 1 (the source's index -1), so the path's `j`-th step goes into layer
      `j + 1`: layer 1 is never consulted, and a path ends in layer `|g| - 1`, after
      `|g| - 1` modes. */
  ghost predicate ValidPrefix(g: seq<seq<nat>>, p: seq<nat>)
  {
    1 <= |p| < |g| && p[0] in g[0] &&
    forall j :: 1 <= j < |p| ==> Step(g, j + 1, p[j - 1], p[j])
  }

  /** A path that reached the last layer. */
  ghost predicate Complete(g: seq<seq<nat>>, p: seq<nat>)
  {
    ValidPrefix(g, p) && |p| == |g| - 1
  }

  /** The sum of the edge costs along a path. */
  function PathCost(p: seq<nat>): nat
    decreases |p|
  {
    if |p| <= 1 then 0 else PathCost(p[..|p| - 1]) + EdgeCost(p[|p| - 2], p[|p| - 1])
  }

  /** Which paths are complete does not depend on layer 1, since the seeds skip it. */
  lemma CompleteIgnoresLayerOne(g: seq<seq<nat>>, h: seq<seq<nat>>, p: seq<nat>)
    requires |g| == |h| && |g| >= 2 && g[0] == h[0]
    requires forall i :: 2 <= i < |g| ==> g[i] == h[i]
    ensures Complete(g, p) <==> Complete(h, p)
  {
    if 1 <= |p| < |g| {
      forall j | 1 <= j < |p| ensures Step(g, j + 1, p[j - 1], p[j]) == Step(h, j + 1, p[j - 1], p[j]) {
      }
    }
  }

  /** Any prefix can be carried on to the last layer. */
  lemma {:induction false} ExtendToComplete(g: seq<seq<nat>>, p: seq<nat>) returns (q: seq<nat>)
    requires ValidPrefix(g, p)
    ensures Complete(g, q)
    decreases |g| - |p|
  {
    if |p| == |g| - 1 {
      q := p;
    } else {
      var layer := |p| + 1;
      var m := if |g[layer]| == 0 then p[|p| - 1] else g[layer][0];
      ValidPrefixExtend(g, p, m);
      q := ExtendToComplete(g, p + [m]);
    }
  }

  /** A valid step extends a valid prefix. */
  lemma ValidPrefixExtend(g: seq<seq<nat>>, p: seq<nat>, n: nat)
    requires ValidPrefix(g, p) && |p| + 1 < |g| && Step(g, |p| + 1, p[|p| - 1], n)
    ensures ValidPrefix(g, p + [n])
  {
    var p' := p + [n];
    assert forall j :: 0 <= j < |p| ==> p'[j] == p[j];
    forall j | 1 <= j < |p'| ensures Step(g, j + 1, p'[j - 1], p'[j]) {
      if j < |p| {
        assert Step(g, j + 1, p[j - 1], p[j]);
      }
    }
  }

  /** The prefix of a valid prefix is valid. */
  lemma ValidPrefixInit(g: seq<seq<nat>>, p: seq<nat>)
    requires ValidPrefix(g, p) && |p| >= 2
    ensures ValidPrefix(g, p[..|p| - 1])
    ensures Step(g, |p|, p[|p| - 2], p[|p| - 1])
  {
    var q := p[..|p| - 1];
    forall j | 1 <= j < |q| ensures Step(g, j + 1, q[j - 1], q[j]) {
      assert Step(g, j + 1, p[j - 1], p[j]);
    }
    assert Step(g, |p| - 1 + 1, p[|p| - 1 - 1], p[|p| - 1]);
  }

  lemma PathCostExtend(p: seq<nat>, n: nat)
    requires |p| >= 1
    ensures PathCost(p + [n]) == PathCost(p) + EdgeCost(p[|p| - 1], n)
  {
    var q := p + [n];
    assert q[..|q| - 1] == p;
    assert q[|q| - 2] == p[|p| - 1] && q[|q| - 1] == n;
    PathCostLast(q);
  }

  /** The last step of a path of two or more modes. */
  lemma PathCostLast(q: seq<nat>)
    requires |q| >= 2
    ensures PathCost(q) == PathCost(q[..|q| - 1]) + EdgeCost(q[|q| - 2], q[|q| - 1])
  {
  }

  // ---------------------------------------------------------------------------
  // Queue entries
  // ---------------------------------------------------------------------------

  /** `(path_cost, measure_idx, cur_mode, path)` with `layer == -measure_idx`. */
  datatype Entry = Entry(cost: nat, layer: nat, mode: nat, path: seq<nat>)

  /** Python's order on lists of integers: the first differing item decides, and a
      proper prefix comes first. */
  predicate LexLess(a: seq<nat>, b: seq<nat>)
    decreases |a|
  {
    |b| > 0 && (|a| == 0 || a[0] < b[0] || (a[0] == b[0] && LexLess(a[1..], b[1..])))
  }

  lemma {:induction false} LexLessIrreflexive(a: seq<nat>)
    ensures !LexLess(a, a)
    decreases |a|
  {
    if |a| > 0 {
      LexLessIrreflexive(a[1..]);
    }
  }

  lemma {:induction false} LexLessTransitive(a: seq<nat>, b: seq<nat>, c: seq<nat>)
    requires LexLess(a, b) && LexLess(b, c)
    ensures LexLess(a, c)
    decreases |a|
  {
    if |a| > 0 && a[0] == b[0] && b[0] == c[0] {
      LexLessTransitive(a[1..], b[1..], c[1..]);
    }
  }

  /** Two different lists are ordered one way or the other. */
  lemma {:induction false} LexLessTotal(a: seq<nat>, b: seq<nat>)
    requires a != b
    ensures LexLess(a, b) || LexLess(b, a)
    decreases |a|
  {
    if |a| > 0 && |b| > 0 && a[0] == b[0] {
      assert a == [a[0]] + a[1..] && b == [b[0]] + b[1..];
      LexLessTotal(a[1..], b[1..]);
    }
  }

  /** The heap's order on `(path_cost, measure_idx, cur_mode, path)` tuples: cheaper first,
      then further along (`measure_idx` is `-layer`), then the smaller mode, then the
      smaller path. */
  predicate Before(a: Entry, b: Entry)
  {
    a.cost < b.cost
    || (a.cost == b.cost && a.layer > b.layer)
    || (a.cost == b.cost && a.layer == b.layer && a.mode < b.mode)
    || (a.cost == b.cost && a.layer == b.layer && a.mode == b.mode && LexLess(a.path, b.path))
  }

  lemma BeforeIrreflexive(a: Entry)
    ensures !Before(a, a)
  {
    LexLessIrreflexive(a.path);
  }

  lemma BeforeTransitive(a: Entry, b: Entry, c: Entry)
    requires Before(a, b) && Before(b, c)
    ensures Before(a, c)
  {
    if a.cost == b.cost == c.cost && a.layer == b.layer == c.layer && a.mode == b.mode == c.mode {
      LexLessTransitive(a.path, b.path, c.path);
    }
  }

  /** Two different entries are ordered one way or the other. */
  lemma BeforeTotal(a: Entry, b: Entry)
    requires a != b
    ensures Before(a, b) || Before(b, a)
  {
    if a.cost == b.cost && a.layer == b.layer && a.mode == b.mode {
      LexLessTotal(a.path, b.path);
    }
  }

  /** `heappop`: the least entry of the queue in the tuple order. Entries equal in every
      field are interchangeable, so the pop is the same whichever copy is taken. */
  function MinIndex(q: seq<Entry>): (i: nat)
    requires |q| > 0
    ensures i < |q| && forall j :: 0 <= j < |q| ==> !Before(q[j], q[i])
    ensures forall j :: 0 <= j < |q| && q[j] != q[i] ==> Before(q[i], q[j])
    decreases |q|
  {
    if |q| == 1 then BeforeIrreflexive(q[0]); 0
    else
      var k := MinIndex(q[..|q| - 1]);
      var last := q[|q| - 1];
      assert forall j :: 0 <= j < |q| - 1 ==> q[..|q| - 1][j] == q[j];
      MinIndexStep(q[..|q| - 1], last, k);
      if Before(last, q[k]) then |q| - 1 else k
  }

  /** One more entry after a queue whose least entry is at `k`. */
  lemma MinIndexStep(q: seq<Entry>, last: Entry, k: nat)
    requires k < |q| && forall j :: 0 <= j < |q| ==> !Before(q[j], q[k]) && (q[j] != q[k] ==> Before(q[k], q[j]))
    ensures Before(last, q[k]) ==>
              !Before(last, last) && forall j :: 0 <= j < |q| ==> !Before(q[j], last) && (q[j] != last ==> Before(last, q[j]))
    ensures !Before(last, q[k]) ==> last == q[k] || Before(q[k], last)
  {
    if Before(last, q[k]) {
      BeforeIrreflexive(last);
      forall j | 0 <= j < |q| ensures !Before(q[j], last) && (q[j] != last ==> Before(last, q[j])) {
        if Before(q[j], last) {
          BeforeTransitive(q[j], last, q[k]);
        }
        if q[j] != q[k] {
          BeforeTransitive(last, q[k], q[j]);
        }
      }
    } else if last != q[k] {
      BeforeTotal(last, q[k]);
    }
  }

  /** The entry pushed when stepping from `e` to the neighbour `n`. */
  function Child(e: Entry, n: nat): Entry
  {
    Entry(e.cost + EdgeCost(e.mode, n), e.layer + 1, n, e.path + [n])
  }

  /** The entry pushed when the next layer is empty: same mode, same cost. */
  function Carry(e: Entry): Entry
  {
    Entry(e.cost, e.layer + 1, e.mode, e.path + [e.mode])
  }

  /** An entry's fields agree with its path. */
  ghost predicate Fits(g: seq<seq<nat>>, e: Entry)
  {
    1 <= e.layer < |g| && |e.path| == e.layer && ValidPrefix(g, e.path)
    && e.path[e.layer - 1] == e.mode && PathCost(e.path) == e.cost
  }

  /** Some entry of `s` reached `mode` in `layer` at cost at most `c`. */
  ghost predicate Covered(s: set<Entry>, layer: nat, mode: nat, c: nat)
  {
    exists e :: e in s && e.layer == layer && e.mode == mode && e.cost <= c
  }

  /** Every step out of the expanded entry `e` is accounted for: carried through an
      empty layer, or recorded in the cost map at no more than its price. */
  ghost predicate Closed(g: seq<seq<nat>>, dist: map<(nat, nat), nat>, seen: set<Entry>, e: Entry)
    requires e.layer + 1 < |g|
  {
    if |g[e.layer + 1]| == 0 then Covered(seen, e.layer + 1, e.mode, e.cost) else Relaxed(g, dist, e)
  }

  /** Every step out of `e` into the next layer is recorded at no more than its price. */
  ghost predicate Relaxed(g: seq<seq<nat>>, dist: map<(nat, nat), nat>, e: Entry)
    requires e.layer + 1 < |g|
  {
    forall n :: n in g[e.layer + 1] ==> (e.layer + 1, n) in dist && dist[(e.layer + 1, n)] <= e.cost + EdgeCost(e.mode, n)
  }

  lemma FitsChild(g: seq<seq<nat>>, e: Entry, n: nat)
    requires Fits(g, e) && e.layer + 1 < |g| && Step(g, e.layer + 1, e.mode, n)
    ensures Fits(g, Child(e, n))
  {
    ValidPrefixExtend(g, e.path, n);
    PathCostExtend(e.path, n);
  }

  lemma FitsCarry(g: seq<seq<nat>>, e: Entry)
    requires Fits(g, e) && e.layer + 1 < |g| && |g[e.layer + 1]| == 0
    ensures Fits(g, Carry(e)) && Carry(e) == Child(e, e.mode)
  {
    FitsChild(g, e, e.mode);
  }

  lemma CoveredMono(s: set<Entry>, s': set<Entry>, layer: nat, mode: nat, c: nat, c': nat)
    requires Covered(s, layer, mode, c) && s <= s' && c <= c'
    ensures Covered(s', layer, mode, c')
  {
    var e :| e in s && e.layer == layer && e.mode == mode && e.cost <= c;
    assert e in s';
  }

  /** A closed entry stays closed while entries are added and stored costs fall. */
  lemma ClosedMono(g: seq<seq<nat>>, dist: map<(nat, nat), nat>, dist': map<(nat, nat), nat>,
                   seen: set<Entry>, seen': set<Entry>, e: Entry)
    requires e.layer + 1 < |g| && Closed(g, dist, seen, e) && seen <= seen'
    requires forall k :: k in dist ==> k in dist' && dist'[k] <= dist[k]
    ensures Closed(g, dist', seen', e)
  {
    if |g[e.layer + 1]| == 0 {
      CoveredMono(seen, seen', e.layer + 1, e.mode, e.cost, e.cost);
    }
  }

  // ---------------------------------------------------------------------------
  // Termination measure
  // ---------------------------------------------------------------------------

  function Power(b: nat, n: nat): (r: nat)
    ensures b >= 1 ==> r >= 1
  {
    if n == 0 then 1 else b * Power(b, n - 1)
  }

  /** An entry in layer `l` weighs `b^(n - l)`; expanding it pushes fewer than `b`
      entries, each one layer on, so the total weight of the queue falls at every pop. */
  ghost function EntryWeight(e: Entry, n: nat, b: nat): nat
  {
    if e.layer < n then Power(b, n - e.layer) else 1
  }

  ghost function Weight(q: seq<Entry>, n: nat, b: nat): nat
    decreases |q|
  {
    if |q| == 0 then 0 else Weight(q[..|q| - 1], n, b) + EntryWeight(q[|q| - 1], n, b)
  }

  lemma {:induction false} WeightAppend(a: seq<Entry>, c: seq<Entry>, n: nat, b: nat)
    ensures Weight(a + c, n, b) == Weight(a, n, b) + Weight(c, n, b)
    decreases |c|
  {
    if |c| > 0 {
      assert (a + c)[..|a + c| - 1] == a + c[..|c| - 1];
      WeightAppend(a, c[..|c| - 1], n, b);
    } else {
      assert a + c == a;
    }
  }

  lemma WeightRemove(q: seq<Entry>, i: nat, n: nat, b: nat)
    requires i < |q|
    ensures Weight(q, n, b) == Weight(q[..i] + q[i + 1..], n, b) + EntryWeight(q[i], n, b)
  {
    assert q == q[..i] + [q[i]] + q[i + 1..];
    WeightAppend(q[..i] + [q[i]], q[i + 1..], n, b);
    WeightAppend(q[..i], [q[i]], n, b);
    WeightAppend(q[..i], q[i + 1..], n, b);
    assert Weight([q[i]], n, b) == EntryWeight(q[i], n, b) by {
      assert [q[i]][..0] == [];
    }
  }

  lemma {:induction false} WeightSameLayer(q: seq<Entry>, layer: nat, n: nat, b: nat)
    requires layer < n && forall t :: 0 <= t < |q| ==> q[t].layer == layer
    ensures Weight(q, n, b) == |q| * Power(b, n - layer)
    decreases |q|
  {
    if |q| > 0 {
      WeightSameLayer(q[..|q| - 1], layer, n, b);
    }
  }

  /** Popping `e` and pushing fewer than `b` entries one layer further lowers the weight. */
  lemma PushDecreases(rest: seq<Entry>, pushed: seq<Entry>, e: Entry, n: nat, b: nat)
    requires e.layer + 1 < n && b >= 1 && |pushed| < b
    requires forall t :: 0 <= t < |pushed| ==> pushed[t].layer == e.layer + 1
    ensures Weight(rest + pushed, n, b) < Weight(rest, n, b) + EntryWeight(e, n, b)
  {
    WeightAppend(rest, pushed, n, b);
    WeightSameLayer(pushed, e.layer + 1, n, b);
    var p := Power(b, n - (e.layer + 1));
    assert EntryWeight(e, n, b) == b * p;
    MulLess(|pushed|, b, p);
  }

  lemma MulLess(c: nat, b: nat, p: nat)
    requires c < b && p >= 1
    ensures c * p < b * p
  {
  }

  /** The largest layer size. */
  function MaxLen(layers: seq<seq<nat>>): (r: nat)
    ensures forall i :: 0 <= i < |layers| ==> |layers[i]| <= r
    decreases |layers|
  {
    if |layers| == 0 then 0
    else
      var m := MaxLen(layers[..|layers| - 1]);
      assert forall i :: 0 <= i < |layers| - 1 ==> layers[i] == layers[..|layers| - 1][i];
      if |layers[|layers| - 1]| > m then |layers[|layers| - 1]| else m
  }

  // ---------------------------------------------------------------------------
  // The relaxation step (gp_to_kivy.py:537-545)
  // ---------------------------------------------------------------------------

  /** The inner loop over the next layer's dict: a neighbour whose stored cost (absent
      meaning infinity) is strictly above the price through `e` gets the new price and is
      listed in `improved`, in visiting order; the caller pushes one entry for each. Stored
      costs only ever fall, and afterwards none is above its price through `e`. */
  method RelaxAll(e: Entry, nbrs: seq<nat>, dist: map<(nat, nat), nat>)
      returns (dist': map<(nat, nat), nat>, improved: seq<nat>)
    ensures |improved| <= |nbrs|
    ensures forall t :: 0 <= t < |improved| ==> improved[t] in nbrs
    ensures forall k :: k in dist ==> k in dist' && dist'[k] <= dist[k]
    ensures forall k :: k in dist' ==>
              ((k in dist && dist'[k] == dist[k]) ||
               (k.0 == e.layer + 1 && k.1 in improved && dist'[k] == e.cost + EdgeCost(e.mode, k.1)))
    ensures forall n :: n in nbrs ==> (e.layer + 1, n) in dist' && dist'[(e.layer + 1, n)] <= e.cost + EdgeCost(e.mode, n)
  {
    dist' := dist;
    improved := [];
    var j := 0;
    while j < |nbrs|
      invariant j <= |nbrs| && |improved| <= j
      invariant forall t :: 0 <= t < |improved| ==> improved[t] in nbrs
      invariant forall k :: k in dist ==> k in dist' && dist'[k] <= dist[k]
      invariant forall k :: k in dist' ==>
                  ((k in dist && dist'[k] == dist[k]) ||
                   (k.0 == e.layer + 1 && k.1 in improved && dist'[k] == e.cost + EdgeCost(e.mode, k.1)))
      invariant forall t :: 0 <= t < j ==> (e.layer + 1, nbrs[t]) in dist' && dist'[(e.layer + 1, nbrs[t])] <= e.cost + EdgeCost(e.mode, nbrs[t])
    {
      var n := nbrs[j];
      var key: (nat, nat) := (e.layer + 1, n);
      var c := e.cost + EdgeCost(e.mode, n);
      if key !in dist' || c < dist'[key] {
        dist' := dist'[key := c];
        improved := improved + [n];
      }
      j := j + 1;
    }
    assert forall n :: n in nbrs ==> exists t :: 0 <= t < |nbrs| && nbrs[t] == n;
  }

  /** The entries pushed for the improved neighbours. */
  function Children(e: Entry, improved: seq<nat>): (r: seq<Entry>)
    ensures |r| == |improved| && forall t :: 0 <= t < |r| ==> r[t] == Child(e, improved[t])
  {
    seq(|improved|, t requires 0 <= t < |improved| => Child(e, improved[t]))
  }

  // ---------------------------------------------------------------------------
  // The search loop (gp_to_kivy.py:523-545)
  // ---------------------------------------------------------------------------

  /** What the loop has established so far. `seen` holds every entry ever pushed and
      `done` every entry popped; the cost map and the seeds are witnessed by pushed
      entries, every popped entry has had its steps relaxed, and the best completed path
      is no dearer than any completed entry popped. */
  ghost predicate Inv(g: seq<seq<nat>>, queue: seq<Entry>, dist: map<(nat, nat), nat>,
                      seen: set<Entry>, done: set<Entry>, result: Option<seq<nat>>, best: nat,
                      paths: seq<seq<nat>>)
  {
    |g| >= 2
    && (forall e :: e in queue ==> e in seen)
    && (forall e :: e in seen ==> Fits(g, e))
    && (forall e :: e in seen ==> e in done || e in queue)
    && done <= seen
    && (forall e :: e in done && e.layer + 1 < |g| ==> Closed(g, dist, seen, e))
    && (forall k :: k in dist ==> Covered(seen, k.0, k.1, dist[k]))
    && (forall m :: m in g[0] ==> Covered(seen, 1, m, 0))
    && (forall e :: e in done && e.layer == |g| - 1 ==> result.Some? && best <= e.cost)
    && (result.Some? ==> Complete(g, result.value) && PathCost(result.value) == best && result.value in paths)
    && (forall p :: p in paths ==> Complete(g, p))
  }

  /** The queue with entry `i` taken out. */
  function Without(q: seq<Entry>, i: nat): (r: seq<Entry>)
    requires i < |q|
    ensures |r| == |q| - 1
    ensures forall x :: x in q <==> x == q[i] || x in r
  {
    var r := q[..i] + q[i + 1..];
    assert q == q[..i] + [q[i]] + q[i + 1..];
    r
  }

  lemma SeedsInv(g: seq<seq<nat>>, seeds: seq<nat>, queue: seq<Entry>)
    requires |g| >= 2 && forall m :: m in seeds <==> m in g[0]
    requires |queue| == |seeds| && forall t :: 0 <= t < |seeds| ==> queue[t] == Entry(0, 1, seeds[t], [seeds[t]])
    ensures Inv(g, queue, map[], Elems(queue), {}, None, 0, [])
  {
    var seen := Elems(queue);
    forall e | e in seen ensures Fits(g, e) {
      var t :| 0 <= t < |queue| && queue[t] == e;
    }
    forall m | m in g[0] ensures Covered(seen, 1, m, 0) {
      var t :| 0 <= t < |seeds| && seeds[t] == m;
      assert queue[t] in seen;
    }
  }

  lemma PopCompleteKeeps(g: seq<seq<nat>>, queue: seq<Entry>, dist: map<(nat, nat), nat>,
                         seen: set<Entry>, done: set<Entry>, result: Option<seq<nat>>, best: nat,
                         paths: seq<seq<nat>>, i: nat, result': Option<seq<nat>>, best': nat)
    requires Inv(g, queue, dist, seen, done, result, best, paths)
    requires i < |queue| && queue[i].layer == |g| - 1
    requires if result.None? || queue[i].cost < best then result' == Some(queue[i].path) && best' == queue[i].cost
             else result' == result && best' == best
    ensures Inv(g, Without(queue, i), dist, seen, done + {queue[i]}, result', best', paths + [queue[i].path])
  {
    var e := queue[i];
    assert Fits(g, e);
  }

  lemma PopCarryKeeps(g: seq<seq<nat>>, queue: seq<Entry>, dist: map<(nat, nat), nat>,
                      seen: set<Entry>, done: set<Entry>, result: Option<seq<nat>>, best: nat,
                      paths: seq<seq<nat>>, i: nat)
    requires Inv(g, queue, dist, seen, done, result, best, paths)
    requires i < |queue| && queue[i].layer + 1 < |g| && |g[queue[i].layer + 1]| == 0
    ensures Inv(g, Without(queue, i) + [Carry(queue[i])], dist, seen + {Carry(queue[i])}, done + {queue[i]},
                result, best, paths)
  {
    var e := queue[i];
    var seen' := seen + {Carry(e)};
    var queue' := Without(queue, i) + [Carry(e)];
    FitsCarry(g, e);
    forall x | x in done + {e} && x.layer + 1 < |g| ensures Closed(g, dist, seen', x) {
      if x == e {
        assert Carry(e) in seen';
      } else {
        ClosedMono(g, dist, dist, seen, seen', x);
      }
    }
    forall k | k in dist ensures Covered(seen', k.0, k.1, dist[k]) {
      CoveredMono(seen, seen', k.0, k.1, dist[k], dist[k]);
    }
    forall m | m in g[0] ensures Covered(seen', 1, m, 0) {
      CoveredMono(seen, seen', 1, m, 0, 0);
    }
    forall x | x in seen' ensures x in done + {e} || x in queue' {
    }
  }

  lemma RelaxedClosed(g: seq<seq<nat>>, dist': map<(nat, nat), nat>, seen': set<Entry>, e: Entry)
    requires e.layer + 1 < |g| && |g[e.layer + 1]| > 0 && Relaxed(g, dist', e)
    ensures Closed(g, dist', seen', e)
  {
  }

  lemma PopRelaxKeeps(g: seq<seq<nat>>, queue: seq<Entry>, dist: map<(nat, nat), nat>,
                      seen: set<Entry>, done: set<Entry>, result: Option<seq<nat>>, best: nat,
                      paths: seq<seq<nat>>, i: nat, dist': map<(nat, nat), nat>, improved: seq<nat>)
    requires Inv(g, queue, dist, seen, done, result, best, paths)
    requires i < |queue| && queue[i].layer + 1 < |g| && |g[queue[i].layer + 1]| > 0
    requires forall t :: 0 <= t < |improved| ==> improved[t] in g[queue[i].layer + 1]
    requires forall k :: k in dist ==> k in dist' && dist'[k] <= dist[k]
    requires forall k :: k in dist' ==>
               ((k in dist && dist'[k] == dist[k]) ||
                (k.0 == queue[i].layer + 1 && k.1 in improved && dist'[k] == queue[i].cost + EdgeCost(queue[i].mode, k.1)))
    requires Relaxed(g, dist', queue[i])
    ensures var pushed := Children(queue[i], improved);
            Inv(g, Without(queue, i) + pushed, dist', seen + Elems(pushed), done + {queue[i]}, result, best, paths)
  {
    var e := queue[i];
    var pushed := Children(e, improved);
    var seen' := seen + Elems(pushed);
    var queue' := Without(queue, i) + pushed;
    assert Fits(g, e);
    PushedFit(g, e, improved);
    RelaxedClosed(g, dist', seen', e);
    ClosedAfterPop(g, dist, dist', seen, seen', done, e);
    CoveredAfterRelax(dist, dist', seen, seen', e, improved);
    forall m | m in g[0] ensures Covered(seen', 1, m, 0) {
      CoveredMono(seen, seen', 1, m, 0, 0);
    }
    forall x | x in seen' ensures x in done + {e} || x in queue' {
    }
  }

  /** The children pushed for the relaxed successors are all well formed. */
  lemma PushedFit(g: seq<seq<nat>>, e: Entry, improved: seq<nat>)
    requires Fits(g, e) && e.layer + 1 < |g| && |g[e.layer + 1]| > 0
    requires forall t :: 0 <= t < |improved| ==> improved[t] in g[e.layer + 1]
    ensures forall x :: x in Elems(Children(e, improved)) ==> Fits(g, x)
  {
    var pushed := Children(e, improved);
    forall x | x in Elems(pushed) ensures Fits(g, x) {
      var t :| 0 <= t < |pushed| && pushed[t] == x;
      FitsChild(g, e, improved[t]);
    }
  }

  /** Popping `e` once it is closed keeps every popped entry closed. */
  lemma ClosedAfterPop(g: seq<seq<nat>>, dist: map<(nat, nat), nat>, dist': map<(nat, nat), nat>,
                       seen: set<Entry>, seen': set<Entry>, done: set<Entry>, e: Entry)
    requires forall x :: x in done && x.layer + 1 < |g| ==> Closed(g, dist, seen, x)
    requires e.layer + 1 < |g| && Closed(g, dist', seen', e) && seen <= seen'
    requires forall k :: k in dist ==> k in dist' && dist'[k] <= dist[k]
    ensures forall x :: x in done + {e} && x.layer + 1 < |g| ==> Closed(g, dist', seen', x)
  {
    forall x | x in done + {e} && x.layer + 1 < |g| ensures Closed(g, dist', seen', x) {
      if x != e {
        ClosedMono(g, dist, dist', seen, seen', x);
      }
    }
  }

  /** Every stored cost, old or lowered, is still witnessed by a pushed entry. */
  lemma CoveredAfterRelax(dist: map<(nat, nat), nat>, dist': map<(nat, nat), nat>,
                          seen: set<Entry>, seen': set<Entry>, e: Entry, improved: seq<nat>)
    requires forall k :: k in dist ==> Covered(seen, k.0, k.1, dist[k])
    requires seen' == seen + Elems(Children(e, improved))
    requires forall k :: k in dist' ==>
               ((k in dist && dist'[k] == dist[k]) ||
                (k.0 == e.layer + 1 && k.1 in improved && dist'[k] == e.cost + EdgeCost(e.mode, k.1)))
    ensures forall k :: k in dist' ==> Covered(seen', k.0, k.1, dist'[k])
  {
    var pushed := Children(e, improved);
    forall k | k in dist' ensures Covered(seen', k.0, k.1, dist'[k]) {
      if k in dist && dist'[k] == dist[k] {
        CoveredMono(seen, seen', k.0, k.1, dist[k], dist[k]);
      } else {
        var t :| 0 <= t < |improved| && improved[t] == k.1;
        assert pushed[t] in seen';
      }
    }
  }

  /** Once every pushed entry has been popped, every valid prefix is matched by a popped
      entry at the same layer and mode that cost no more. */
  lemma {:induction false} Reachable(g: seq<seq<nat>>, dist: map<(nat, nat), nat>, seen: set<Entry>,
                                     done: set<Entry>, p: seq<nat>)
    requires seen <= done
    requires forall e :: e in done && e.layer + 1 < |g| ==> Closed(g, dist, seen, e)
    requires forall k :: k in dist ==> Covered(seen, k.0, k.1, dist[k])
    requires |g| > 0 && forall m :: m in g[0] ==> Covered(seen, 1, m, 0)
    requires ValidPrefix(g, p)
    ensures Covered(done, |p|, p[|p| - 1], PathCost(p))
    decreases |p|
  {
    if |p| == 1 {
      CoveredMono(seen, done, 1, p[0], 0, 0);
    } else {
      var q := p[..|p| - 1];
      var m := p[|p| - 1];
      ValidPrefixInit(g, p);
      Reachable(g, dist, seen, done, q);
      var e :| e in done && e.layer == |q| && e.mode == q[|q| - 1] && e.cost <= PathCost(q);
      assert q + [m] == p;
      PathCostExtend(q, m);
      assert Closed(g, dist, seen, e);
      if |g[|p|]| == 0 {
        CoveredMono(seen, done, |p|, m, e.cost, PathCost(p));
      } else {
        CoveredMono(seen, done, |p|, m, dist[(|p|, m)], PathCost(p));
      }
    }
  }

  /** What the loop leaves behind when the queue runs dry. */
  lemma SearchConclusion(g: seq<seq<nat>>, dist: map<(nat, nat), nat>, seen: set<Entry>,
                         done: set<Entry>, result: Option<seq<nat>>, best: nat, paths: seq<seq<nat>>)
    requires Inv(g, [], dist, seen, done, result, best, paths)
    ensures result.Some? <==> |g[0]| > 0
    ensures |paths| > 0 <==> result.Some?
    ensures forall p :: p in paths ==> Complete(g, p)
    ensures result.Some? ==>
              Complete(g, result.value) && result.value in paths &&
              forall p :: Complete(g, p) ==> PathCost(result.value) <= PathCost(p)
  {
    assert seen <= done;
    forall p | Complete(g, p) ensures result.Some? && best <= PathCost(p) {
      Reachable(g, dist, seen, done, p);
    }
    if |paths| > 0 {
      assert Complete(g, paths[0]);
    }
    if |g[0]| > 0 {
      var q := ExtendToComplete(g, [g[0][0]]);
    }
  }

  /** One turn of the loop: pop the cheapest entry and either record its completed path,
      carry it through an empty layer, or relax its steps into the next layer. The
      invariant is kept and the queue's weight falls. */
  method Pop(g: seq<seq<nat>>, layers: seq<seq<nat>>, queue: seq<Entry>, dist: map<(nat, nat), nat>,
             result: Option<seq<nat>>, best: nat, paths: seq<seq<nat>>,
             ghost seen: set<Entry>, ghost done: set<Entry>, ghost b: nat)
      returns (queue': seq<Entry>, dist': map<(nat, nat), nat>, result': Option<seq<nat>>, best': nat,
               paths': seq<seq<nat>>, ghost seen': set<Entry>, ghost done': set<Entry>)
    requires Inv(g, queue, dist, seen, done, result, best, paths) && |queue| > 0
    requires layers == BuildGraph(g) && b == MaxLen(layers) + 2
    ensures Inv(g, queue', dist', seen', done', result', best', paths')
    ensures Weight(queue', |g|, b) < Weight(queue, |g|, b)
  {
    var i := MinIndex(queue);
    var e := queue[i];
    assert e in seen && Fits(g, e);
    WeightRemove(queue, i, |g|, b);
    done' := done + {e};
    if e.layer == |g| - 1 {
      queue', dist', seen' := Without(queue, i), dist, seen;
      result', best', paths' := Record(g, queue, dist, result, best, paths, seen, done, i);
    } else if |layers[e.layer + 1]| == 0 {
      queue', seen' := CarryOver(g, queue, dist, result, best, paths, seen, done, i, b);
      dist', result', best', paths' := dist, result, best, paths;
    } else {
      queue', dist', seen' := Relax(g, layers[e.layer + 1], queue, dist, result, best, paths, seen, done, i, b);
      result', best', paths' := result, best, paths;
    }
  }

  /** A completed path: kept in `paths`, and it becomes the result when it is the first or
      strictly cheaper than the best so far. */
  method Record(g: seq<seq<nat>>, queue: seq<Entry>, dist: map<(nat, nat), nat>,
                result: Option<seq<nat>>, best: nat, paths: seq<seq<nat>>,
                ghost seen: set<Entry>, ghost done: set<Entry>, i: nat)
      returns (result': Option<seq<nat>>, best': nat, paths': seq<seq<nat>>)
    requires Inv(g, queue, dist, seen, done, result, best, paths)
    requires i < |queue| && queue[i].layer == |g| - 1
    ensures paths' == paths + [queue[i].path]
    ensures result' == (if result.None? || queue[i].cost < best then Some(queue[i].path) else result)
    ensures Inv(g, Without(queue, i), dist, seen, done + {queue[i]}, result', best', paths')
  {
    var e := queue[i];
    paths' := paths + [e.path];
    if result.None? || e.cost < best {
      result', best' := Some(e.path), e.cost;
    } else {
      result', best' := result, best;
    }
    PopCompleteKeeps(g, queue, dist, seen, done, result, best, paths, i, result', best');
  }

  /** The next layer has no candidates: the entry moves on at no cost, keeping its mode. */
  method CarryOver(g: seq<seq<nat>>, queue: seq<Entry>, dist: map<(nat, nat), nat>,
                   result: Option<seq<nat>>, best: nat, paths: seq<seq<nat>>,
                   ghost seen: set<Entry>, ghost done: set<Entry>, i: nat, ghost b: nat)
      returns (queue': seq<Entry>, ghost seen': set<Entry>)
    requires Inv(g, queue, dist, seen, done, result, best, paths)
    requires i < |queue| && queue[i].layer + 1 < |g| && |g[queue[i].layer + 1]| == 0 && b >= 2
    ensures queue' == Without(queue, i) + [Carry(queue[i])]
    ensures Inv(g, queue', dist, seen', done + {queue[i]}, result, best, paths)
    ensures Weight(queue', |g|, b) < Weight(Without(queue, i), |g|, b) + EntryWeight(queue[i], |g|, b)
  {
    var e := queue[i];
    PopCarryKeeps(g, queue, dist, seen, done, result, best, paths, i);
    PushDecreases(Without(queue, i), [Carry(e)], e, |g|, b);
    queue', seen' := Without(queue, i) + [Carry(e)], seen + {Carry(e)};
  }

  /** The next layer has candidates: every step whose price beats the stored cost lowers
      it and pushes the extended path. */
  method Relax(g: seq<seq<nat>>, nbrs: seq<nat>, queue: seq<Entry>, dist: map<(nat, nat), nat>,
               result: Option<seq<nat>>, best: nat, paths: seq<seq<nat>>,
               ghost seen: set<Entry>, ghost done: set<Entry>, i: nat, ghost b: nat)
      returns (queue': seq<Entry>, dist': map<(nat, nat), nat>, ghost seen': set<Entry>)
    requires Inv(g, queue, dist, seen, done, result, best, paths)
    requires i < |queue| && queue[i].layer + 1 < |g| && |g[queue[i].layer + 1]| > 0
    requires forall n :: n in nbrs <==> n in g[queue[i].layer + 1]
    requires |nbrs| + 2 <= b
    ensures Inv(g, queue', dist', seen', done + {queue[i]}, result, best, paths)
    ensures Weight(queue', |g|, b) < Weight(Without(queue, i), |g|, b) + EntryWeight(queue[i], |g|, b)
  {
    var e := queue[i];
    var improved;
    dist', improved := RelaxAll(e, nbrs, dist);
    var pushed := Children(e, improved);
    ghost var l := e.layer + 1;
    forall n | n in g[l] ensures (l, n) in dist' && dist'[(l, n)] <= e.cost + EdgeCost(e.mode, n) {
      assert n in nbrs;
    }
    assert Relaxed(g, dist', e);
    PopRelaxKeeps(g, queue, dist, seen, done, result, best, paths, i, dist', improved);
    PushDecreases(Without(queue, i), pushed, e, |g|, b);
    queue', seen' := Without(queue, i) + pushed, seen + Elems(pushed);
  }

  /** The outcome of a search: the cheapest completed path, and every completed path in
      the order it came off the queue. */
  datatype Outcome = Outcome(result: Option<seq<nat>>, paths: seq<seq<nat>>)

  /** The search over the candidate layers `g`. An empty `g` raises at `graph[0]`; a
      single non-empty layer raises when its first seed looks up `graph[2]`. Otherwise
      the result is a completed path of least total cost, and there is one exactly when
      layer 0 has a candidate. Entries come off the queue in the heap's tuple order, which
      fixes which of several equally cheap paths is returned; the contract does not say
      which. */
  method Search(g: seq<seq<nat>>) returns (r: Result<Outcome>)
    ensures r.Err? <==> |g| == 0 || (|g| == 1 && |g[0]| > 0)
    ensures r.Err? ==> r.error == IndexError
    ensures r.Ok? ==> (r.value.result.Some? <==> |g| >= 2 && |g[0]| > 0)
    ensures r.Ok? ==> (|r.value.paths| > 0 <==> r.value.result.Some?)
    ensures r.Ok? ==> forall p :: p in r.value.paths ==> Complete(g, p)
    ensures r.Ok? && r.value.result.Some? ==>
              var best := r.value.result.value;
              Complete(g, best) && best in r.value.paths && forall p :: Complete(g, p) ==> PathCost(best) <= PathCost(p)
  {
    if |g| == 0 {
      return Err(IndexError);
    }
    var layers := BuildGraph(g);
    var seeds := layers[0];
    if |g| == 1 {
      if |seeds| == 0 {
        return Ok(Outcome(None, []));
      }
      return Err(IndexError);
    }
    var queue := seq(|seeds|, t requires 0 <= t < |seeds| => Entry(0, 1, seeds[t], [seeds[t]]));
    var dist: map<(nat, nat), nat> := map[];
    var result: Option<seq<nat>> := None;
    var best: nat := 0;
    var paths: seq<seq<nat>> := [];
    ghost var seen := Elems(queue);
    ghost var done: set<Entry> := {};
    SeedsInv(g, seeds, queue);
    ghost var b := MaxLen(layers) + 2;
    while |queue| > 0
      invariant Inv(g, queue, dist, seen, done, result, best, paths)
      decreases Weight(queue, |g|, b)
    {
      queue, dist, result, best, paths, seen, done := Pop(g, layers, queue, dist, result, best, paths, seen, done, b);
    }
    SearchConclusion(g, dist, seen, done, result, best, paths);
    return Ok(Outcome(result, paths));
  }

  // ---------------------------------------------------------------------------
  // Every measure gets a mode (the search with layer 1 put back)
  // ---------------------------------------------------------------------------

  /** What the search is for: one mode per measure, the first a candidate of layer 0 and
      each later one a step into its own layer. */
  ghost predicate Assignment(g: seq<seq<nat>>, p: seq<nat>)
  {
    |p| == |g| >= 1 && p[0] in g[0] &&
    forall j :: 1 <= j < |p| ==> Step(g, j, p[j - 1], p[j])
  }

  /** The layers with an empty placeholder put in at position 1, the position the seeds
      skip, so that layer `i` of `g` is consulted by the step into position `i + 1`. */
  function Padded(g: seq<seq<nat>>): (h: seq<seq<nat>>)
    requires |g| >= 1
    ensures |h| == |g| + 1 && h[0] == g[0] && |h[1]| == 0
    ensures forall i :: 1 <= i < |g| ==> h[i + 1] == g[i]
  {
    [g[0], []] + g[1..]
  }

  /** The search's completed paths over the padded layers are the assignments of `g`. */
  lemma PaddedComplete(g: seq<seq<nat>>, p: seq<nat>)
    requires |g| >= 1
    ensures Complete(Padded(g), p) <==> Assignment(g, p)
  {
    var h := Padded(g);
    if |p| == |g| {
      forall j | 1 <= j < |p| ensures Step(h, j + 1, p[j - 1], p[j]) == Step(g, j, p[j - 1], p[j]) {
        assert h[j + 1] == g[j];
      }
    }
  }

  /** The as-written search never reads layer 1: over the layers c_maj, d_maj, c_maj it
      completes the two-mode path that stays on c_maj at no cost, which assigns no mode to
      the d_maj measure, while the only assignment of all three measures changes key
      twice. */
  lemma SearchSkipsLayerOne()
    ensures var g := [[2773], [1717], [2773]];
            && Complete(g, [2773, 2773]) && PathCost([2773, 2773]) == 0
            && !Assignment(g, [2773, 2773])
            && Assignment(g, [2773, 1717, 2773]) && PathCost([2773, 1717, 2773]) > 0
            && forall p :: Assignment(g, p) ==> p == [2773, 1717, 2773]
  {
    var g := [[2773], [1717], [2773]];
    assert Step(g, 2, 2773, 2773);
    assert PathCost([2773, 1717]) == EdgeCost(2773, 1717);
    forall p | Assignment(g, p) ensures p == [2773, 1717, 2773] {
      assert Step(g, 1, p[0], p[1]) && Step(g, 2, p[1], p[2]);
    }
  }

  /** The search as evidently intended: seeds at layer 0, every later layer consulted in
      turn. Only an empty `g` raises (at `graph[0]`); the result is an assignment of least
      total cost, and there is one exactly when layer 0 has a candidate. */
  method SearchAllMeasures(g: seq<seq<nat>>) returns (r: Result<Outcome>)
    ensures r.Err? <==> |g| == 0
    ensures r.Err? ==> r.error == IndexError
    ensures r.Ok? ==> (r.value.result.Some? <==> |g[0]| > 0)
    ensures r.Ok? ==> (|r.value.paths| > 0 <==> r.value.result.Some?)
    ensures r.Ok? ==> forall p :: p in r.value.paths ==> Assignment(g, p)
    ensures r.Ok? && r.value.result.Some? ==>
              var best := r.value.result.value;
              Assignment(g, best) && best in r.value.paths && forall p :: Assignment(g, p) ==> PathCost(best) <= PathCost(p)
  {
    if |g| == 0 {
      return Err(IndexError);
    }
    var h := Padded(g);
    r := Search(h);
    forall p ensures Complete(h, p) <==> Assignment(g, p) {
      PaddedComplete(g, p);
    }
  }

  // ---------------------------------------------------------------------------
  // Ranking the completed paths and naming the winner (gp_to_kivy.py:550-555)
  // ---------------------------------------------------------------------------

  /** `len(set(path))`: how many different modes a path visits. */
  function DistinctModes(p: seq<nat>): nat
  {
    |Elems(p)|
  }

  predicate SortedBy<T>(key: T -> nat, s: seq<T>)
  {
    forall i, j :: 0 <= i < j < |s| ==> key(s[i]) <= key(s[j])
  }

  /** Puts `x` in front of the first element whose key is at least `x`'s. */
  function InsertBy<T>(key: T -> nat, x: T, s: seq<T>): (r: seq<T>)
    requires SortedBy(key, s)
    ensures SortedBy(key, r)
    ensures multiset(r) == multiset(s) + multiset{x}
    ensures |s| == 0 || key(x) <= key(s[0]) ==> r[0] == x
    ensures |s| > 0 && key(x) > key(s[0]) ==> r[0] == s[0]
    decreases |s|
  {
    if |s| == 0 || key(x) <= key(s[0]) then
      InsertFront(key, x, s);
      [x] + s
    else
      var rest := InsertBy(key, x, s[1..]);
      InsertBehind(key, s, x, rest);
      [s[0]] + rest
  }

  lemma InsertFront<T>(key: T -> nat, x: T, s: seq<T>)
    requires SortedBy(key, s) && (|s| == 0 || key(x) <= key(s[0]))
    ensures SortedBy(key, [x] + s)
  {
    var r := [x] + s;
    forall i, j | 0 <= i < j < |r| ensures key(r[i]) <= key(r[j]) {
      assert r[j] == s[j - 1];
      if i > 0 {
        assert r[i] == s[i - 1];
      }
    }
  }

  lemma InsertBehind<T>(key: T -> nat, s: seq<T>, x: T, rest: seq<T>)
    requires SortedBy(key, s) && |s| > 0 && key(s[0]) < key(x)
    requires SortedBy(key, rest) && multiset(rest) == multiset(s[1..]) + multiset{x}
    ensures SortedBy(key, [s[0]] + rest)
    ensures multiset([s[0]] + rest) == multiset(s) + multiset{x}
  {
    assert s == [s[0]] + s[1..];
    InsertKeepsSorted(key, s[0], rest, x, s[1..]);
  }

  lemma InsertKeepsSorted<T>(key: T -> nat, h: T, rest: seq<T>, x: T, tail: seq<T>)
    requires SortedBy(key, rest) && SortedBy(key, [h] + tail)
    requires key(h) < key(x)
    requires multiset(rest) == multiset(tail) + multiset{x}
    ensures SortedBy(key, [h] + rest)
  {
    forall j | 0 <= j < |rest| ensures key(h) <= key(rest[j]) {
      var y := rest[j];
      assert y in multiset(rest);
      if y != x {
        assert y in multiset(tail);
        var k :| 0 <= k < |tail| && tail[k] == y;
        assert ([h] + tail)[k + 1] == y && ([h] + tail)[0] == h;
      }
    }
    var r := [h] + rest;
    forall i, j | 0 <= i < j < |r| ensures key(r[i]) <= key(r[j]) {
      assert r[j] == rest[j - 1];
      if i > 0 {
        assert r[i] == rest[i - 1];
      }
    }
  }

  /** Insertion sort by key. Ties keep their order. */
  function SortBy<T>(key: T -> nat, s: seq<T>): (r: seq<T>)
    ensures SortedBy(key, r)
    ensures multiset(r) == multiset(s)
    decreases |s|
  {
    if |s| == 0 then []
    else
      assert s == [s[0]] + s[1..];
      InsertBy(key, s[0], SortBy(key, s[1..]))
  }

  /** After sorting, the first element has the least key, and among the elements with
      that key it is the one that came first. */
  lemma {:induction false} SortHeadIsFirstLeast<T>(key: T -> nat, s: seq<T>) returns (k: nat)
    requires |s| > 0
    ensures k < |s| && SortBy(key, s)[0] == s[k]
    ensures forall j :: 0 <= j < |s| ==> key(s[k]) <= key(s[j])
    ensures forall j :: 0 <= j < k ==> key(s[j]) > key(s[k])
    decreases |s|
  {
    var tail := s[1..];
    if |tail| == 0 {
      k := 0;
    } else {
      var k' := SortHeadIsFirstLeast(key, tail);
      if key(s[0]) <= key(tail[k']) {
        k := 0;
        FirstLeastFront(key, s, k');
      } else {
        k := k' + 1;
        FirstLeastTail(key, s, k');
      }
    }
  }

  /** The head of `s` keeps its place in front when no later element is cheaper. */
  lemma FirstLeastFront<T>(key: T -> nat, s: seq<T>, k': nat)
    requires |s| > 1 && k' < |s| - 1 && SortBy(key, s[1..])[0] == s[1..][k']
    requires forall j :: 0 <= j < |s| - 1 ==> key(s[1..][k']) <= key(s[1..][j])
    requires key(s[0]) <= key(s[1..][k'])
    ensures SortBy(key, s)[0] == s[0]
    ensures forall j :: 0 <= j < |s| ==> key(s[0]) <= key(s[j])
  {
    SortByHead(key, s);
    LeastAtHead(key, s, k');
  }

  /** Otherwise the sorted tail's head, which is the first least element of the tail, comes
      first. */
  lemma FirstLeastTail<T>(key: T -> nat, s: seq<T>, k': nat)
    requires |s| > 1 && k' < |s| - 1 && SortBy(key, s[1..])[0] == s[1..][k']
    requires forall j :: 0 <= j < |s| - 1 ==> key(s[1..][k']) <= key(s[1..][j])
    requires forall j :: 0 <= j < k' ==> key(s[1..][j]) > key(s[1..][k'])
    requires key(s[0]) > key(s[1..][k'])
    ensures SortBy(key, s)[0] == s[k' + 1]
    ensures forall j :: 0 <= j < |s| ==> key(s[k' + 1]) <= key(s[j])
    ensures forall j :: 0 <= j < k' + 1 ==> key(s[j]) > key(s[k' + 1])
  {
    SortByHead(key, s);
    LeastInTail(key, s, k');
  }

  lemma LeastAtHead<T>(key: T -> nat, s: seq<T>, k': nat)
    requires |s| > 1 && k' < |s| - 1
    requires forall j :: 0 <= j < |s| - 1 ==> key(s[1..][k']) <= key(s[1..][j])
    requires key(s[0]) <= key(s[1..][k'])
    ensures forall j :: 0 <= j < |s| ==> key(s[0]) <= key(s[j])
  {
    forall j | 1 <= j < |s| ensures key(s[0]) <= key(s[j]) {
      assert s[1..][j - 1] == s[j];
    }
  }

  lemma LeastInTail<T>(key: T -> nat, s: seq<T>, k': nat)
    requires |s| > 1 && k' < |s| - 1
    requires forall j :: 0 <= j < |s| - 1 ==> key(s[1..][k']) <= key(s[1..][j])
    requires forall j :: 0 <= j < k' ==> key(s[1..][j]) > key(s[1..][k'])
    requires key(s[0]) > key(s[1..][k'])
    ensures forall j :: 0 <= j < |s| ==> key(s[k' + 1]) <= key(s[j])
    ensures forall j :: 0 <= j < k' + 1 ==> key(s[j]) > key(s[k' + 1])
  {
    assert s[1..][k'] == s[k' + 1];
    forall j | 1 <= j < |s| ensures key(s[k' + 1]) <= key(s[j]) {
      assert s[1..][j - 1] == s[j];
    }
    forall j | 1 <= j < k' + 1 ensures key(s[j]) > key(s[k' + 1]) {
      assert s[1..][j - 1] == s[j];
    }
  }

  lemma SortByHead<T>(key: T -> nat, s: seq<T>)
    requires |s| > 1
    ensures SortBy(key, s)[0] == (if key(s[0]) <= key(SortBy(key, s[1..])[0]) then s[0] else SortBy(key, s[1..])[0])
  {
    assert |SortBy(key, s[1..])| > 0 by {
      assert s[1] in multiset(s[1..]);
    }
  }

  /** `paths.sort(key=custom_sort)`: the completed paths by how many different modes they
      visit; Python's sort is stable, and so is this one. */
  function SortByDistinct(ps: seq<seq<nat>>): (r: seq<seq<nat>>)
    ensures SortedBy(DistinctModes, r)
    ensures multiset(r) == multiset(ps)
  {
    SortBy(DistinctModes, ps)
  }

  /** `t[key]` for every key of a path; the first missing key raises. */
  function NameAll(t: Table<nat, string>, path: seq<nat>): (r: Result<seq<string>>)
    ensures r.Ok? <==> forall j :: 0 <= j < |path| ==> path[j] in KeysOf(t)
    ensures r.Err? ==> r.error == KeyError
    ensures r.Ok? ==> |r.value| == |path| && forall j :: 0 <= j < |path| ==> Lookup(t, path[j]) == Ok(r.value[j])
    decreases |path|
  {
    if |path| == 0 then Ok([])
    else
      match Lookup(t, path[0])
      case Err(e) => Err(e)
      case Ok(name) =>
        match NameAll(t, path[1..])
        case Err(e) => Err(e)
        case Ok(names) =>
          assert forall j :: 1 <= j < |path| ==> path[j] == path[1..][j - 1];
          Ok([name] + names)
  }

  /** `filter_to_mode[mode]` for every mode of a path. */
  function NameModes(path: seq<nat>): Result<seq<string>>
  {
    NameAll(FilterToMode, path)
  }

  /** A mask of `mode_filters` is a mode the tables know. */
  predicate IsModeMask(x: nat)
  {
    exists i :: 0 <= i < |ModeFilters| && ModeFilters[i].1 == x
  }

  /** A mode's mask is a key of `filter_to_mode`, and it names that mode. */
  lemma ModeMaskNamed(x: nat)
    requires IsModeMask(x)
    ensures x in KeysOf(FilterToMode) && (Lookup(FilterToMode, x).value, x) in ModeFilters
  {
    var i :| 0 <= i < |ModeFilters| && ModeFilters[i].1 == x;
    FilterToModeSwaps();
    FilterToModeInverts(i);
    assert KeysOf(FilterToMode)[i] == x;
    assert ModeFilters[i] == (Lookup(FilterToMode, x).value, x);
  }

  /** A path of mode masks names every step after the mode it came from. */
  lemma NameModesOfModeMasks(path: seq<nat>)
    requires forall j :: 0 <= j < |path| ==> IsModeMask(path[j])
    ensures NameModes(path).Ok? && NamesOf(NameModes(path).value, path)
  {
    forall j | 0 <= j < |path| ensures path[j] in KeysOf(FilterToMode) {
      ModeMaskNamed(path[j]);
    }
    forall j | 0 <= j < |path| ensures (NameModes(path).value[j], path[j]) in ModeFilters {
      ModeMaskNamed(path[j]);
    }
  }

  /** The last step: rank the completed paths and name the modes of the first. No
      completed path means `paths[0]` raises. */
  function Report(paths: seq<seq<nat>>): (r: Result<seq<string>>)
    ensures |paths| == 0 ==> r == Err(IndexError)
  {
    if |paths| == 0 then Err(IndexError) else NameModes(SortByDistinct(paths)[0])
  }

  // ---------------------------------------------------------------------------
  // The whole pipeline (gp_to_kivy.py:431-555)
  // ---------------------------------------------------------------------------

  /** One layer per measure: the modes that contain the measure's pitch classes. */
  function CandidateGraph(flat: seq<nat>): (g: seq<seq<nat>>)
    ensures |g| == |flat|
    ensures forall l :: 0 <= l < |g| ==> g[l] == ContainingModes(flat[l])
    ensures forall l, j :: 0 <= l < |g| && 0 <= j < |g[l]| ==> IsModeMask(g[l][j])
  {
    FilterToModeSwaps();
    var g := seq(|flat|, l requires 0 <= l < |flat| => ContainingModes(flat[l]));
    forall l, j | 0 <= l < |g| && 0 <= j < |g[l]| ensures IsModeMask(g[l][j]) {
      var pos := Positions(Selectors(ModeFilters, flat[l], Contains));
      assert pos[j] < |ModeFilters| && ModeFilters[pos[j]].1 == g[l][j];
    }
    g
  }

  /** Every step of a valid path is a mode some layer offers: a carried mode was offered
      by an earlier layer. */
  lemma {:induction false} PathModesOffered(g: seq<seq<nat>>, p: seq<nat>)
    requires ValidPrefix(g, p)
    ensures forall j :: 0 <= j < |p| ==> exists l :: 0 <= l < |g| && p[j] in g[l]
    decreases |p|
  {
    if |p| > 1 {
      var q := p[..|p| - 1];
      ValidPrefixInit(g, p);
      PathModesOffered(g, q);
      forall j | 0 <= j < |p| ensures exists l :: 0 <= l < |g| && p[j] in g[l] {
        if j < |q| {
          assert p[j] == q[j];
        } else if |g[j + 1]| == 0 {
          assert p[j] == q[j - 1];
        } else {
          assert p[j] in g[j + 1];
        }
      }
    }
  }

  /** A valid path through a graph of mode masks visits only mode masks. */
  lemma PathOfModeMasks(g: seq<seq<nat>>, p: seq<nat>)
    requires ValidPrefix(g, p)
    requires forall l, j :: 0 <= l < |g| && 0 <= j < |g[l]| ==> IsModeMask(g[l][j])
    ensures forall j :: 0 <= j < |p| ==> IsModeMask(p[j])
  {
    PathModesOffered(g, p);
    forall j | 0 <= j < |p| ensures IsModeMask(p[j]) {
      var l :| 0 <= l < |g| && p[j] in g[l];
      var t :| 0 <= t < |g[l]| && g[l][t] == p[j];
    }
  }

  /** What the search prints: the cheapest path, every completed path (the count is
      printed), and the names of the modes of the path that visits the fewest. */
  datatype Summary = Summary(cheapest: seq<nat>, paths: seq<seq<nat>>, names: seq<string>)

  /** A summary of a search over `g`: the cheapest path is an assignment of least cost
      and one of the assignments listed, and the names spell out the modes of the
      first listed path among those that visit the fewest different modes. */
  ghost predicate Summarises(g: seq<seq<nat>>, s: Summary)
  {
    && Assignment(g, s.cheapest)
    && (forall p :: Assignment(g, p) ==> PathCost(s.cheapest) <= PathCost(p))
    && s.cheapest in s.paths
    && (forall p :: p in s.paths ==> Assignment(g, p))
    && exists k :: 0 <= k < |s.paths| && FirstFewest(s.paths, k) && NamesOf(s.names, s.paths[k])
  }

  /** Path `k` visits the fewest different modes, and no earlier path visits as few. */
  ghost predicate FirstFewest(paths: seq<seq<nat>>, k: nat)
    requires k < |paths|
  {
    && (forall j :: 0 <= j < |paths| ==> DistinctModes(paths[k]) <= DistinctModes(paths[j]))
    && (forall j :: 0 <= j < k ==> DistinctModes(paths[j]) > DistinctModes(paths[k]))
  }

  /** `names` are the `mode_filters` names of the masks of `path`, step by step. */
  ghost predicate NamesOf(names: seq<string>, path: seq<nat>)
  {
    |names| == |path| && forall j :: 0 <= j < |names| ==> (names[j], path[j]) in ModeFilters
  }

  /** Ranking and naming the assignments a search over a graph of mode masks found never fails,
      and gives a summary of the search. */
  lemma ReportSummarises(g: seq<seq<nat>>, cheapest: seq<nat>, paths: seq<seq<nat>>)
    requires forall l, j :: 0 <= l < |g| && 0 <= j < |g[l]| ==> IsModeMask(g[l][j])
    requires Assignment(g, cheapest) && cheapest in paths
    requires forall p :: Assignment(g, p) ==> PathCost(cheapest) <= PathCost(p)
    requires forall p :: p in paths ==> Assignment(g, p)
    ensures Report(paths).Ok? && Summarises(g, Summary(cheapest, paths, Report(paths).value))
  {
    var k := SortHeadIsFirstLeast(DistinctModes, paths);
    assert FirstFewest(paths, k);
    var pick := paths[k];
    assert pick in paths;
    AssignmentOfModeMasks(g, pick);
    NameModesOfModeMasks(pick);
  }

  /** An assignment over a graph of mode masks visits only mode masks. */
  lemma AssignmentOfModeMasks(g: seq<seq<nat>>, p: seq<nat>)
    requires Assignment(g, p)
    requires forall l, j :: 0 <= l < |g| && 0 <= j < |g[l]| ==> IsModeMask(g[l][j])
    ensures forall j :: 0 <= j < |p| ==> IsModeMask(p[j])
  {
    var h := Padded(g);
    PaddedComplete(g, p);
    forall l, j | 0 <= l < |h| && 0 <= j < |h[l]| ensures IsModeMask(h[l][j]) {
      if l >= 2 {
        assert h[l] == g[l - 1];
      }
    }
    PathOfModeMasks(h, p);
  }

  /** `key_sig_a_star`: flatten the two tracks' masks, list the candidate modes per
      measure, search, rank and name. The search is the corrected one that gives every
      measure a mode. It fails exactly when flattening fails, when there are no measures,
      or when the first measure fits no mode; otherwise it gives a summary of the search. */
  method KeySigAStar(keys: seq<seq<nat>>) returns (r: Result<Summary>)
    ensures FlattenKeySigs(keys).Err? ==> r == Err(ValueError)
    ensures FlattenKeySigs(keys).Ok? ==>
              var g := CandidateGraph(FlattenKeySigs(keys).value);
              && (r.Err? <==> |g| == 0 || |g[0]| == 0)
              && (r.Err? ==> r.error == IndexError)
              && (r.Ok? ==> Summarises(g, r.value))
  {
    var flat := FlattenKeySigs(keys);
    if flat.Err? {
      return Err(flat.error);
    }
    var g := CandidateGraph(flat.value);
    var found := SearchAllMeasures(g);
    if found.Err? {
      return Err(found.error);
    }
    var o := found.value;
    if o.result.None? {
      return Err(IndexError);
    }
    ReportSummarises(g, o.result.value, o.paths);
    var names := Report(o.paths);
    return Ok(Summary(o.result.value, o.paths, names.value));
  }

  /** The graph as written: one layer per measure, the modes the bit walk keeps. */
  function CandidateGraphAsWritten(flat: seq<nat>): (g: seq<seq<nat>>)
    ensures |g| == |flat|
    ensures forall l :: 0 <= l < |g| ==> g[l] == MeasureCandidateModes(flat[l])
    ensures forall l, j :: 0 <= l < |g| && 0 <= j < |g[l]| ==> IsModeMask(g[l][j])
  {
    var g := seq(|flat|, l requires 0 <= l < |flat| => MeasureCandidateModes(flat[l]));
    forall l, j | 0 <= l < |g| && 0 <= j < |g[l]| ensures IsModeMask(g[l][j]) {
      var pos := Positions(Selectors(ModeFilters, flat[l], Survives));
      assert pos[j] < |ModeFilters| && ModeFilters[pos[j]].1 == g[l][j];
    }
    g
  }

  /** A summary of the search as written over `g`: the same as `Summarises`, with the
      complete paths of `Search`, which give the last measure no mode, in place of
      assignments. */
  ghost predicate SummarisesAsWritten(g: seq<seq<nat>>, s: Summary)
  {
    && Complete(g, s.cheapest)
    && (forall p :: Complete(g, p) ==> PathCost(s.cheapest) <= PathCost(p))
    && s.cheapest in s.paths
    && (forall p :: p in s.paths ==> Complete(g, p))
    && exists k :: 0 <= k < |s.paths| && FirstFewest(s.paths, k) && NamesOf(s.names, s.paths[k])
  }

  /** Ranking and naming the complete paths the search as written found over a graph of
      mode masks never fails, and gives a summary of that search. */
  lemma ReportSummarisesAsWritten(g: seq<seq<nat>>, cheapest: seq<nat>, paths: seq<seq<nat>>)
    requires forall l, j :: 0 <= l < |g| && 0 <= j < |g[l]| ==> IsModeMask(g[l][j])
    requires Complete(g, cheapest) && cheapest in paths
    requires forall p :: Complete(g, p) ==> PathCost(cheapest) <= PathCost(p)
    requires forall p :: p in paths ==> Complete(g, p)
    ensures Report(paths).Ok? && SummarisesAsWritten(g, Summary(cheapest, paths, Report(paths).value))
    ensures |Report(paths).value| == |g| - 1
  {
    var k := SortHeadIsFirstLeast(DistinctModes, paths);
    assert FirstFewest(paths, k);
    var pick := paths[k];
    assert pick in paths;
    PathOfModeMasks(g, pick);
    NameModesOfModeMasks(pick);
  }

  /** `key_sig_a_star` as written: the bit-walk candidate lists and `Search`. A song of
      one measure raises at `graph[2]`, a first measure with no candidate leaves no path
      for `paths[0]`, and otherwise the names stop one short of the last measure. */
  method KeySigAStarAsWritten(keys: seq<seq<nat>>) returns (r: Result<Summary>)
    ensures FlattenKeySigs(keys).Err? ==> r == Err(ValueError)
    ensures FlattenKeySigs(keys).Ok? ==>
              var g := CandidateGraphAsWritten(FlattenKeySigs(keys).value);
              && (r.Err? <==> |g| <= 1 || |g[0]| == 0)
              && (r.Err? ==> r.error == IndexError)
              && (r.Ok? ==> SummarisesAsWritten(g, r.value) && |r.value.names| == |g| - 1)
  {
    var flat := FlattenKeySigs(keys);
    if flat.Err? {
      return Err(flat.error);
    }
    var g := CandidateGraphAsWritten(flat.value);
    var found := Search(g);
    if found.Err? {
      return Err(found.error);
    }
    var o := found.value;
    if o.result.None? {
      return Err(IndexError);
    }
    ReportSummarisesAsWritten(g, o.result.value, o.paths);
    var names := Report(o.paths);
    return Ok(Summary(o.result.value, o.paths, names.value));
  }
}
