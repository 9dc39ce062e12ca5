/** The repeat-group expander, once, generic over what each measure contributes.
    The builder runs it over beats, over measure records and over per-measure pitch masks
    (gp_to_kivy.py:96-137 and 300-323 are two copies of the same accumulate-and-flush loop). */
module Repeats {
  import opened PyCore

  /** What the expander reads from a measure header. */
  datatype Marker = Marker(isRepeatOpen: bool, repeatClose: int)

  /** One measure's contribution: its repeat marker and the items it appends to the
      pending group. */
  datatype Item<T> = Item(marker: Marker, chunk: seq<T>)

  /** The accumulator: what has been flushed to the output so far, and the pending group. */
  datatype Expander<T> = Expander(out: seq<T>, pending: seq<T>)

  /** How many copies of a group are emitted when the group ends at a measure with marker
      `m`: the repeat count of a closing repeat, otherwise one. */
  function Times(m: Marker): (n: nat)
    ensures n >= 1
    ensures m.repeatClose > 0 <==> n == m.repeatClose
  {
    if m.repeatClose > 0 then m.repeatClose else 1
  }

  /** One measure of the loop: the measure's items join the pending group; an open repeat
      keeps accumulating (checked first, so open-and-close just accumulates); a close with
      count `n > 0` flushes `n` copies of the group; anything else flushes it once. */
  function Step<T>(st: Expander<T>, item: Item<T>): (r: Expander<T>)
    ensures st.out <= r.out
    ensures item.marker.isRepeatOpen ==> r.out == st.out
    ensures !item.marker.isRepeatOpen ==> r.pending == []
    ensures |r.out| + |r.pending|
         == |st.out| + (if item.marker.isRepeatOpen then 1 else Times(item.marker)) * (|st.pending| + |item.chunk|)
  {
    var group := st.pending + item.chunk;
    if item.marker.isRepeatOpen then Expander(st.out, group)
    else if item.marker.repeatClose > 0 then Expander(st.out + Repeat(group, item.marker.repeatClose), [])
    else Expander(st.out + group, [])
  }

  /** The loop over the measures, in document order. */
  function Run<T>(st: Expander<T>, items: seq<Item<T>>): Expander<T>
    decreases |items|
  {
    if |items| == 0 then st else Run(Step(st, items[0]), items[1..])
  }

  /** The expanded sequence; a group still pending when the measures run out is dropped. */
  function Expand<T>(items: seq<Item<T>>): seq<T>
  {
    Run(Expander([], []), items).out
  }

  // ---------------------------------------------------------------------------
  // Reference semantics: split the measures into groups, each a run of open repeats
  // ended by one measure that is not an open repeat, and emit each group's items
  // `Times` times.
  // ---------------------------------------------------------------------------

  /** All the items of the given measures, in order. */
  function AllChunks<T>(items: seq<Item<T>>): seq<T>
    decreases |items|
  {
    if |items| == 0 then [] else AllChunks(items[..|items| - 1]) + items[|items| - 1].chunk
  }

  /** Every measure is an open repeat. */
  predicate AllOpen<T>(items: seq<Item<T>>)
  {
    forall j :: 0 <= j < |items| ==> items[j].marker.isRepeatOpen
  }

  /** The position of the first measure that ends a group. */
  function FirstFlush<T>(items: seq<Item<T>>): (r: Option<nat>)
    ensures r.None? <==> AllOpen(items)
    ensures r.Some? ==> r.value < |items| && !items[r.value].marker.isRepeatOpen && AllOpen(items[..r.value])
    decreases |items|
  {
    if |items| == 0 then None
    else if !items[0].marker.isRepeatOpen then Some(0)
    else
      match FirstFlush(items[1..])
      case None => None
      case Some(k) =>
        assert items[..k + 1] == [items[0]] + items[1..][..k];
        Some(k + 1)
  }

  function ByGroups<T>(items: seq<Item<T>>): seq<T>
    decreases |items|
  {
    match FirstFlush(items)
    case None => []
    case Some(k) => Repeat(AllChunks(items[..k + 1]), Times(items[k].marker)) + ByGroups(items[k + 1..])
  }

  // ---------------------------------------------------------------------------
  // Lemmas
  // ---------------------------------------------------------------------------

  lemma {:induction false} AllChunksAppend<T>(a: seq<Item<T>>, b: seq<Item<T>>)
    ensures AllChunks(a + b) == AllChunks(a) + AllChunks(b)
    decreases |b|
  {
    if |b| == 0 {
      assert a + b == a;
    } else {
      assert (a + b)[..|a + b| - 1] == a + b[..|b| - 1];
      AllChunksAppend(a, b[..|b| - 1]);
    }
  }

  lemma {:induction false} RunAppend<T>(st: Expander<T>, a: seq<Item<T>>, b: seq<Item<T>>)
    ensures Run(st, a + b) == Run(Run(st, a), b)
    decreases |a|
  {
    if |a| == 0 {
      assert a + b == b;
    } else {
      assert (a + b)[0] == a[0];
      assert (a + b)[1..] == a[1..] + b;
      RunAppend(Step(st, a[0]), a[1..], b);
    }
  }

  /** Over open repeats only, nothing is flushed: every item joins the pending group. */
  lemma {:induction false} RunOpen<T>(st: Expander<T>, items: seq<Item<T>>)
    requires AllOpen(items)
    ensures Run(st, items) == Expander(st.out, st.pending + AllChunks(items))
    decreases |items|
  {
    if |items| > 0 {
      var st' := Step(st, items[0]);
      OpenTail(items);
      RunOpen(st', items[1..]);
      calc {
        Run(st, items);
        Run(st', items[1..]);
        Expander(st.out, (st.pending + items[0].chunk) + AllChunks(items[1..]));
        { ChunksCons(items); }
        Expander(st.out, st.pending + AllChunks(items));
      }
    }
  }

  lemma OpenTail<T>(items: seq<Item<T>>)
    requires |items| > 0 && AllOpen(items)
    ensures AllOpen(items[1..])
  {
    forall j | 0 <= j < |items| - 1 ensures items[1..][j].marker.isRepeatOpen {
      assert items[1..][j] == items[j + 1];
    }
  }

  lemma ChunksCons<T>(items: seq<Item<T>>)
    requires |items| > 0
    ensures AllChunks(items) == items[0].chunk + AllChunks(items[1..])
  {
    AllChunksAppend([items[0]], items[1..]);
    assert [items[0]] + items[1..] == items;
    assert AllChunks([items[0]]) == items[0].chunk by {
      assert [items[0]][..0] == [];
    }
  }

  /** Flushed output never changes afterwards. */
  lemma {:induction false} RunKeepsOutput<T>(out: seq<T>, pending: seq<T>, items: seq<Item<T>>)
    ensures Run(Expander(out, pending), items).out == out + Run(Expander([], pending), items).out
    ensures Run(Expander(out, pending), items).pending == Run(Expander([], pending), items).pending
    decreases |items|
  {
    if |items| > 0 {
      var s1 := Step(Expander(out, pending), items[0]);
      var s2 := Step(Expander([], pending), items[0]);
      assert s1.out == out + s2.out && s1.pending == s2.pending;
      RunKeepsOutput(out + s2.out, s2.pending, items[1..]);
      RunKeepsOutput(s2.out, s2.pending, items[1..]);
    }
  }

  lemma RepeatOnce<T>(xs: seq<T>)
    ensures Repeat(xs, 1) == xs
  {
  }

  /** Running over one group (open repeats, then the measure that ends the group) flushes
      `Times` copies of the group's items and leaves nothing pending. */
  lemma RunOneGroup<T>(out: seq<T>, g: seq<Item<T>>)
    requires |g| >= 1 && AllOpen(g[..|g| - 1]) && !g[|g| - 1].marker.isRepeatOpen
    ensures Run(Expander(out, []), g) == Expander(out + Repeat(AllChunks(g), Times(g[|g| - 1].marker)), [])
  {
    var k := |g| - 1;
    var opens := g[..k];
    var last := g[k];
    var st0: Expander<T> := Expander(out, []);
    assert g == opens + [last];
    RunAppend(st0, opens, [last]);
    RunOpen(st0, opens);
    var st1 := Run(st0, opens);
    assert st1 == Expander(out, AllChunks(opens)) by {
      assert [] + AllChunks(opens) == AllChunks(opens);
    }
    RunSingle(st1, last);
    FlushPending(out, AllChunks(opens), last);
    var group := AllChunks(opens) + last.chunk;
    assert AllChunks(g) == group;
    FlushOnce(out, group, last.marker);
    calc {
      Run(st0, g);
      Run(st1, [last]);
      Step(st1, last);
      Step(Expander(out, []), Item(last.marker, group));
      Expander(out + Repeat(group, Times(last.marker)), []);
    }
  }

  lemma RunSingle<T>(st: Expander<T>, it: Item<T>)
    ensures Run(st, [it]) == Step(st, it)
  {
    assert [it][1..] == [];
  }

  lemma FlushPending<T>(out: seq<T>, pending: seq<T>, it: Item<T>)
    requires !it.marker.isRepeatOpen
    ensures Step(Expander(out, pending), it) == Step(Expander(out, []), Item(it.marker, pending + it.chunk))
  {
    assert [] + (pending + it.chunk) == pending + it.chunk;
  }

  lemma FlushOnce<T>(out: seq<T>, group: seq<T>, m: Marker)
    requires !m.isRepeatOpen
    ensures Step(Expander(out, []), Item(m, group)) == Expander(out + Repeat(group, Times(m)), [])
  {
    assert [] + group == group;
    if m.repeatClose <= 0 {
      RepeatOnce(group);
    }
  }

  lemma {:induction false} RunMatchesGroups<T>(out: seq<T>, items: seq<Item<T>>)
    ensures Run(Expander(out, []), items).out == out + ByGroups(items)
    decreases |items|
  {
    match FirstFlush(items)
    case None =>
      RunOpen(Expander(out, []), items);
    case Some(k) =>
      var g := items[..k + 1];
      var rest := items[k + 1..];
      assert items == g + rest;
      assert g[..|g| - 1] == items[..k];
      RunAppend(Expander(out, []), g, rest);
      RunOneGroup(out, g);
      RunMatchesGroups(out + Repeat(AllChunks(g), Times(items[k].marker)), rest);
  }

  /** The accumulate-and-flush loop computes the group-by-group expansion. */
  lemma ExpandMatchesGroups<T>(items: seq<Item<T>>)
    ensures Expand(items) == ByGroups(items)
  {
    RunMatchesGroups([], items);
  }

  /** One closed group (open repeats ended by a measure that is not an open repeat) expands
      to `Times` copies of all its items, so to `|group| * n` items. */
  lemma ExpandGroup<T>(g: seq<Item<T>>)
    requires |g| >= 1 && AllOpen(g[..|g| - 1]) && !g[|g| - 1].marker.isRepeatOpen
    ensures Expand(g) == Repeat(AllChunks(g), Times(g[|g| - 1].marker))
    ensures |Expand(g)| == Times(g[|g| - 1].marker) * |AllChunks(g)|
  {
    ExpandMatchesGroups(g);
    var k := |g| - 1;
    FlushOfGroup(g);
    assert g[..k + 1] == g;
    assert ByGroups(g[k + 1..]) == [] by {
      assert FirstFlush(g[k + 1..]) == None;
    }
  }

  /** A closed group is flushed at its last measure and nowhere before. */
  lemma {:induction false} FlushOfGroup<T>(g: seq<Item<T>>)
    requires |g| >= 1 && AllOpen(g[..|g| - 1]) && !g[|g| - 1].marker.isRepeatOpen
    ensures FirstFlush(g) == Some(|g| - 1)
    decreases |g|
  {
    if |g| > 1 {
      var t := g[1..];
      assert g[0] == g[..|g| - 1][0];
      var opens := t[..|t| - 1];
      forall j | 0 <= j < |opens| ensures opens[j].marker.isRepeatOpen {
        assert opens[j] == g[..|g| - 1][j + 1];
      }
      assert t[|t| - 1] == g[|g| - 1];
      FlushOfGroup(t);
    }
  }

  /** Expansion is compositional across a group boundary. */
  lemma ExpandSplit<T>(a: seq<Item<T>>, b: seq<Item<T>>)
    requires |a| == 0 || !a[|a| - 1].marker.isRepeatOpen
    ensures Expand(a + b) == Expand(a) + Expand(b)
  {
    RunAppend(Expander([], []), a, b);
    var sa := Run(Expander([], []), a);
    if |a| > 0 {
      var a' := a[..|a| - 1];
      assert a == a' + [a[|a| - 1]];
      RunAppend(Expander([], []), a', [a[|a| - 1]]);
    }
    assert sa.pending == [];
    RunKeepsOutput(sa.out, [], b);
  }

  /** A group still open when the measures run out is never flushed. */
  lemma ExpandDropsOpenTail<T>(a: seq<Item<T>>, t: seq<Item<T>>)
    requires AllOpen(t)
    ensures Expand(a + t) == Expand(a)
  {
    RunAppend(Expander([], []), a, t);
    RunOpen(Run(Expander([], []), a), t);
  }

  // ---------------------------------------------------------------------------
  // Naturality: expanding and then replacing every item by a list of items is the same
  // as replacing first and then expanding. This ties the beat timeline, the measure table
  // and the key list together.
  // ---------------------------------------------------------------------------

  /** Replace every item by a list of items and concatenate. */
  function FlatMap<T, U>(f: T -> seq<U>, xs: seq<T>): seq<U>
    decreases |xs|
  {
    if |xs| == 0 then [] else FlatMap(f, xs[..|xs| - 1]) + f(xs[|xs| - 1])
  }

  /** Replace every item of every measure. */
  function MapItems<T, U>(f: T -> seq<U>, items: seq<Item<T>>): (r: seq<Item<U>>)
    ensures |r| == |items|
    ensures forall i :: 0 <= i < |r| ==> r[i].marker == items[i].marker
  {
    seq(|items|, i requires 0 <= i < |items| => Item(items[i].marker, FlatMap(f, items[i].chunk)))
  }

  lemma {:induction false} FlatMapAppend<T, U>(f: T -> seq<U>, a: seq<T>, b: seq<T>)
    ensures FlatMap(f, a + b) == FlatMap(f, a) + FlatMap(f, b)
    decreases |b|
  {
    if |b| == 0 {
      assert a + b == a;
    } else {
      assert (a + b)[..|a + b| - 1] == a + b[..|b| - 1];
      FlatMapAppend(f, a, b[..|b| - 1]);
    }
  }

  lemma {:induction false} FlatMapRepeat<T, U>(f: T -> seq<U>, xs: seq<T>, n: int)
    ensures FlatMap(f, Repeat(xs, n)) == Repeat(FlatMap(f, xs), n)
    decreases n
  {
    if n > 0 {
      assert Repeat(xs, n) == xs + Repeat(xs, n - 1);
      assert Repeat(FlatMap(f, xs), n) == FlatMap(f, xs) + Repeat(FlatMap(f, xs), n - 1);
      FlatMapAppend(f, xs, Repeat(xs, n - 1));
      FlatMapRepeat(f, xs, n - 1);
    }
  }

  lemma {:induction false} RunMap<T, U>(f: T -> seq<U>, st: Expander<T>, items: seq<Item<T>>)
    ensures Run(Expander(FlatMap(f, st.out), FlatMap(f, st.pending)), MapItems(f, items))
         == Expander(FlatMap(f, Run(st, items).out), FlatMap(f, Run(st, items).pending))
    decreases |items|
  {
    if |items| > 0 {
      var it := items[0];
      var mst := Expander(FlatMap(f, st.out), FlatMap(f, st.pending));
      var group := st.pending + it.chunk;
      FlatMapAppend(f, st.pending, it.chunk);
      var next := Step(st, it);
      assert Step(mst, MapItems(f, items)[0]) == Expander(FlatMap(f, next.out), FlatMap(f, next.pending)) by {
        if it.marker.isRepeatOpen {
        } else if it.marker.repeatClose > 0 {
          FlatMapRepeat(f, group, it.marker.repeatClose);
          FlatMapAppend(f, st.out, Repeat(group, it.marker.repeatClose));
        } else {
          FlatMapAppend(f, st.out, group);
        }
      }
      assert MapItems(f, items)[1..] == MapItems(f, items[1..]);
      RunMap(f, next, items[1..]);
    }
  }

  /** Expansion commutes with replacing items. */
  lemma ExpandMap<T, U>(f: T -> seq<U>, items: seq<Item<T>>)
    ensures Expand(MapItems(f, items)) == FlatMap(f, Expand(items))
  {
    RunMap(f, Expander([], []), items);
  }
}
