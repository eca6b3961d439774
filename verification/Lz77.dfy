// The match search of stbi_zlib_compress: hash buckets of earlier positions, the longest match
// in the window, and the lazy look at the next byte.
module Lz77 {
  import opened Base
  import opened Binary
  import opened Deflate
  import opened StretchyBuffer

  const BUCKETS: nat := 16384
  const MAX_MATCH: nat := 258

  /** stbiw__zhash */
  function ZHash(data: seq<Byte>, at: nat): bv32
    requires at + 2 < |data|
  {
    var h0 := (data[at] as bv32) + ((data[at + 1] as bv32) << 8) + ((data[at + 2] as bv32) << 16);
    var h1 := h0 ^ (h0 << 3);
    var h2 := h1 + (h1 >> 5);
    var h3 := h2 ^ (h2 << 4);
    var h4 := h3 + (h3 >> 17);
    var h5 := h4 ^ (h4 << 25);
    h5 + (h5 >> 6)
  }

  /** stbiw__zhash(data + at) & (stbiw__ZHASH - 1) */
  function Bucket(data: seq<Byte>, at: nat): (h: nat)
    requires at + 2 < |data|
    ensures h < BUCKETS
  {
    (ZHash(data, at) & 16383) as nat
  }

  // ----- common prefixes -----

  /** How far two positions agree, at most 258 bytes. */
  function Common(data: seq<Byte>, a: nat, b: nat, from: nat): (d: nat)
    requires a <= b && b + from <= |data| && from <= MAX_MATCH
    ensures from <= d <= MAX_MATCH && b + d <= |data|
    decreases MAX_MATCH - from
  {
    if from == MAX_MATCH || b + from == |data| || data[a + from] != data[b + from] then from
    else Common(data, a, b, from + 1)
  }

  /** stbiw__zlib_countm */
  method CountM(data: seq<Byte>, a: nat, b: nat, limit: nat) returns (d: nat)
    requires a <= b && b + limit == |data|
    ensures d == Common(data, a, b, 0)
  {
    d := 0;
    while d < limit && d < 258
      invariant d <= MAX_MATCH && b + d <= |data| && Common(data, a, b, d) == Common(data, a, b, 0)
    {
      if data[a + d] != data[b + d] { break; }
      d := d + 1;
    }
  }

  lemma {:induction false} CommonAgrees(data: seq<Byte>, a: nat, b: nat, from: nat, k: nat)
    requires a <= b && b + from <= |data| && from <= MAX_MATCH && from <= k < Common(data, a, b, from)
    ensures data[a + k] == data[b + k]
    decreases MAX_MATCH - from
  {
    if from < k { CommonAgrees(data, a, b, from + 1, k); }
  }

  /** Copying from where the same bytes came before reproduces them, overlap or not. */
  lemma {:induction false} CopyReproduces(data: seq<Byte>, a: nat, b: nat, len: nat, k: nat)
    requires a < b && b + len <= |data| && k <= len <= Common(data, a, b, 0)
    ensures Copy(data[..b + k], len - k, b - a) == data[..b + len]
    decreases len - k
  {
    hide Common;
    if k < len {
      CommonAgrees(data, a, b, 0, k);
      assert data[..b + k + 1] == data[..b + k] + [data[b + k]];
      CopyReproduces(data, a, b, len, k + 1);
    }
  }

  // ----- the search -----

  predicate InWindow(p: int, i: int, window: int) { p > i - window }

  /** A usable match for position i. */
  predicate IsMatch(data: seq<Byte>, p: nat, i: nat, len: nat)
  {
    && p < i && i - p <= 32767 && i + len <= |data|
    && 3 <= len == Common(data, p, i, 0)
  }

  /** The longest match that the first n entries of a bucket have for position i in the window, and
      the last one of that length; or they have none. */
  ghost predicate Longest(hlist: seq<nat>, data: seq<Byte>, i: nat, n: nat, best: nat, bestloc: Option<nat>)
    requires i < |data| && n <= |hlist| && forall j :: 0 <= j < |hlist| ==> hlist[j] < i
  {
    match bestloc
    case None => best == 3 && NoneLonger(hlist, data, i, 0, n, 2)
    case Some(loc) => exists k :: LongestAt(hlist, data, i, n, best, loc, k)
  }

  ghost predicate LongestAt(hlist: seq<nat>, data: seq<Byte>, i: nat, n: nat, best: nat, loc: nat, k: nat)
    requires i < |data| && n <= |hlist| && forall j :: 0 <= j < |hlist| ==> hlist[j] < i
  {
    && k < n && hlist[k] == loc && IsMatch(data, loc, i, best)
    && NoneLonger(hlist, data, i, 0, k, best) && NoneLonger(hlist, data, i, k + 1, n, best - 1)
  }

  /** No entry from the j-th to before the n-th that is in the window agrees with position i for
      more bytes than that. */
  ghost predicate NoneLonger(hlist: seq<nat>, data: seq<Byte>, i: nat, j: nat, n: nat, limit: nat)
    requires i < |data| && n <= |hlist| && forall j :: 0 <= j < |hlist| ==> hlist[j] < i
  {
    forall m :: j <= m < n && InWindow(hlist[m], i, 32768) ==> Common(data, hlist[m], i, 0) <= limit
  }

  /** A bucket has a longer match than best for the position after i. */
  ghost predicate Better(hlist: seq<nat>, data: seq<Byte>, i: nat, best: nat)
    requires i + 1 < |data| && forall j :: 0 <= j < |hlist| ==> hlist[j] <= i
  {
    exists j :: 0 <= j < |hlist| && InWindow(hlist[j], i, 32767) && Common(data, hlist[j], i + 1, 0) > best
  }

  /** One more entry of the bucket was looked at: it is the new best, or not. */
  lemma LongestStep(hlist: seq<nat>, data: seq<Byte>, i: nat, n: nat, best: nat, bestloc: Option<nat>)
    requires i < |data| && n < |hlist| && forall j :: 0 <= j < |hlist| ==> hlist[j] < i
    requires Longest(hlist, data, i, n, best, bestloc)
    ensures var d := Common(data, hlist[n], i, 0);
      if InWindow(hlist[n], i, 32768) && d >= best then Longest(hlist, data, i, n + 1, d, Some(hlist[n]))
      else Longest(hlist, data, i, n + 1, best, bestloc)
  {
    var d := Common(data, hlist[n], i, 0);
    if InWindow(hlist[n], i, 32768) && d >= best {
      if bestloc.Some? {
        var k :| LongestAt(hlist, data, i, n, best, bestloc.value, k);
        assert NoneLonger(hlist, data, i, 0, n, best);
      }
      assert LongestAt(hlist, data, i, n + 1, d, hlist[n], n);
    } else if bestloc.Some? {
      var k :| LongestAt(hlist, data, i, n, best, bestloc.value, k);
      assert LongestAt(hlist, data, i, n + 1, best, bestloc.value, k);
    }
  }

  /** There is but one of that kind. */
  lemma LongestIsUnique(hlist: seq<nat>, data: seq<Byte>, i: nat,
                        best: nat, loc: Option<nat>, best': nat, loc': Option<nat>)
    requires i < |data| && forall j :: 0 <= j < |hlist| ==> hlist[j] < i
    requires Longest(hlist, data, i, |hlist|, best, loc) && Longest(hlist, data, i, |hlist|, best', loc')
    ensures best == best' && loc == loc'
  {
    if loc.Some? {
      var k :| LongestAt(hlist, data, i, |hlist|, best, loc.value, k);
      if loc'.Some? {
        var k' :| LongestAt(hlist, data, i, |hlist|, best', loc'.value, k');
      }
    }
  }

  method BestMatch(hlist: seq<nat>, data: seq<Byte>, i: nat) returns (best: nat, bestloc: Option<nat>)
    requires i < |data| && forall j :: 0 <= j < |hlist| ==> hlist[j] < i
    ensures Longest(hlist, data, i, |hlist|, best, bestloc)
    ensures bestloc.Some? ==> IsMatch(data, bestloc.value, i, best)
  {
    best, bestloc := 3, None;
    for j := 0 to |hlist|
      invariant Longest(hlist, data, i, j, best, bestloc)
    {
      LongestStep(hlist, data, i, j, best, bestloc);
      if hlist[j] as int > i - 32768 {
        var d := CountM(data, hlist[j], i, |data| - i);
        if d >= best {
          best, bestloc := d, Some(hlist[j]);
        }
      }
    }
  }

  /** Is there a longer match for the next position? */
  method BetterNext(hlist: seq<nat>, data: seq<Byte>, i: nat, best: nat) returns (better: bool)
    requires i + 1 < |data| && forall j :: 0 <= j < |hlist| ==> hlist[j] <= i
    ensures better <==> Better(hlist, data, i, best)
  {
    better := false;
    for j := 0 to |hlist|
      invariant !better && forall k :: 0 <= k < j && InWindow(hlist[k], i, 32767) ==>
        Common(data, hlist[k], i + 1, 0) <= best
    {
      if hlist[j] as int > i - 32767 {
        var e := CountM(data, hlist[j], i + 1, |data| - i - 1);
        if e > best {
          return true;
        }
      }
    }
  }

  // ----- the hash table -----

  /** A growing array of positions with its capacity. */
  datatype Hlist = Hlist(items: seq<nat>, capacity: nat)

  /** A full bucket loses its older half; then the position is pushed. */
  function Entered(hlist: Hlist, quality: nat, i: nat): Hlist
  {
    var kept := if |hlist.items| == 2 * quality then hlist.items[quality..] else hlist.items;
    Hlist(kept + [i], Grown(hlist.capacity, |kept|))
  }

  /** Positions that have been entered: three bytes behind them can be hashed. */
  predicate Positions(data: seq<Byte>, starts: seq<nat>, i: nat)
  {
    |starts| <= i && forall k :: 0 <= k < |starts| ==> starts[k] < i && starts[k] + 3 < |data|
  }

  /** A bucket of the hash table after these positions were entered one after the other. */
  function Filled(data: seq<Byte>, quality: nat, h: nat, starts: seq<nat>): Hlist
    requires Positions(data, starts, |data|)
  {
    if starts == [] then Hlist([], 0)
    else
      var k := |starts| - 1;
      var before := Filled(data, quality, h, starts[..k]);
      if Bucket(data, starts[k]) == h then Entered(before, quality, starts[k]) else before
  }

  /** The largest size it has had. */
  function Peak(data: seq<Byte>, quality: nat, h: nat, starts: seq<nat>): nat
    requires Positions(data, starts, |data|)
  {
    if starts == [] then 0
    else Max(Peak(data, quality, h, starts[..|starts| - 1]), |Filled(data, quality, h, starts).items|)
  }

  /** The largest size that any bucket has had. */
  function Deepest(data: seq<Byte>, quality: nat, starts: seq<nat>): nat
    requires Positions(data, starts, |data|)
  {
    if starts == [] then 0
    else
      var k := |starts| - 1;
      Max(Deepest(data, quality, starts[..k]), |Filled(data, quality, Bucket(data, starts[k]), starts).items|)
  }

  /** What is in a bucket are positions entered; there are no more than those, and no more than the
      size of a bucket. */
  lemma {:induction false} FilledBounds(data: seq<Byte>, quality: nat, h: nat, starts: seq<nat>, i: nat)
    requires Positions(data, starts, i) && i <= |data| && 1 <= quality
    ensures var items := Filled(data, quality, h, starts).items;
      |items| <= |starts| && |items| <= 2 * quality && forall j :: 0 <= j < |items| ==> items[j] < i
    decreases |starts|
  {
    hide Bucket;
    if starts != [] { FilledBounds(data, quality, h, starts[..|starts| - 1], i); }
  }

  /** All positions entered into a bucket, none forgotten. */
  function AllIn(data: seq<Byte>, h: nat, starts: seq<nat>): seq<nat>
    requires Positions(data, starts, |data|)
  {
    if starts == [] then []
    else
      var k := |starts| - 1;
      AllIn(data, h, starts[..k]) + if Bucket(data, starts[k]) == h then [starts[k]] else []
  }

  /** A bucket holds the most recent of them, in order, and has forgotten some only if it holds more
      than half of what it can. */
  lemma {:induction false} FilledIsRecent(data: seq<Byte>, quality: nat, h: nat, starts: seq<nat>)
    requires Positions(data, starts, |data|) && 1 <= quality
    ensures var items, all := Filled(data, quality, h, starts).items, AllIn(data, h, starts);
      && |items| <= |all| && items == all[|all| - |items|..]
      && (|items| < |all| ==> |items| > quality)
    decreases |starts|
  {
    hide Bucket, Entered;
    if starts != [] {
      var k := |starts| - 1;
      FilledIsRecent(data, quality, h, starts[..k]);
      EnteredIsRecent(Filled(data, quality, h, starts[..k]), AllIn(data, h, starts[..k]), quality, starts[k]);
    }
  }

  lemma EnteredIsRecent(hlist: Hlist, all: seq<nat>, quality: nat, i: nat)
    requires 1 <= quality && |hlist.items| <= |all| && hlist.items == all[|all| - |hlist.items|..]
    requires |hlist.items| < |all| ==> |hlist.items| > quality
    ensures var items := Entered(hlist, quality, i).items;
      && |items| <= |all| + 1 && items == (all + [i])[|all| + 1 - |items|..]
      && (|items| < |all| + 1 ==> |items| > quality)
  {
  }

  /** The longest match is the longest length of the format, and the window means distances up to
      32767, one less than the format allows. */
  lemma LimitsAreFormat(p: nat, i: nat)
    requires p <= i
    ensures MAX_MATCH == LengthBase(28) && DistBase(29) + Pow2(DistExtra(29)) - 1 == 32767 + 1
    ensures InWindow(p, i, 32768) <==> i - p <= 32767
    ensures InWindow(p, i, 32767) <==> i + 1 - p <= 32767
  {
    SmallPowers();
  }

  /** Its capacity is that of its largest size: halving leaves it alone. */
  lemma {:induction false} FilledCapacity(data: seq<Byte>, quality: nat, h: nat, starts: seq<nat>)
    requires Positions(data, starts, |data|) && 1 <= quality
    ensures var list := Filled(data, quality, h, starts);
      |list.items| <= Peak(data, quality, h, starts) && list.capacity == Capacity(Peak(data, quality, h, starts))
    decreases |starts|
  {
    hide Bucket;
    if starts != [] {
      var k := |starts| - 1;
      FilledCapacity(data, quality, h, starts[..k]);
      var list := Filled(data, quality, h, starts[..k]);
      var kept := if |list.items| == 2 * quality then list.items[quality..] else list.items;
      PushedAfterCut(Peak(data, quality, h, starts[..k]), |kept|);
    }
  }

  lemma {:induction false} DeepestBounds(data: seq<Byte>, quality: nat, starts: seq<nat>)
    requires Positions(data, starts, |data|) && 1 <= quality
    ensures Deepest(data, quality, starts) <= |data| && Deepest(data, quality, starts) <= 2 * quality
    decreases |starts|
  {
    hide Bucket;
    if starts != [] {
      var k := |starts| - 1;
      DeepestBounds(data, quality, starts[..k]);
      FilledBounds(data, quality, Bucket(data, starts[k]), starts, |data|);
    }
  }

  lemma {:induction false} PeakAtMostDeepest(data: seq<Byte>, quality: nat, h: nat, starts: seq<nat>)
    requires Positions(data, starts, |data|) && 1 <= quality
    ensures Peak(data, quality, h, starts) <= Deepest(data, quality, starts)
    decreases |starts|
  {
    hide Bucket;
    if starts != [] {
      PeakAtMostDeepest(data, quality, h, starts[..|starts| - 1]);
      FilledCapacity(data, quality, h, starts[..|starts| - 1]);
    }
  }

  lemma {:induction false} DeepestIsReached(data: seq<Byte>, quality: nat, starts: seq<nat>) returns (h: nat)
    requires Positions(data, starts, |data|) && 1 <= quality
    ensures h < BUCKETS && Peak(data, quality, h, starts) == Deepest(data, quality, starts)
    decreases |starts|
  {
    hide Bucket;
    h := 0;
    if starts != [] {
      var k := |starts| - 1;
      h := DeepestIsReached(data, quality, starts[..k]);
      var entered := Bucket(data, starts[k]);
      if Deepest(data, quality, starts[..k]) < |Filled(data, quality, entered, starts).items| { h := entered; }
      PeakAtMostDeepest(data, quality, h, starts);
    }
  }

  /** Every bucket is as the positions entered have left it. */
  ghost predicate TableOk(table: array<Hlist>, data: seq<Byte>, quality: nat, starts: seq<nat>)
    reads table
  {
    && table.Length == BUCKETS && Positions(data, starts, |data|)
    && forall h :: 0 <= h < BUCKETS ==> table[h] == Filled(data, quality, h, starts)
  }

  method Enter(table: array<Hlist>, h: nat, data: seq<Byte>, quality: nat, i: nat, ghost starts: seq<nat>)
    requires TableOk(table, data, quality, starts) && Positions(data, starts, i)
    requires i + 3 < |data| && h == Bucket(data, i) && 1 <= quality
    modifies table
    ensures TableOk(table, data, quality, starts + [i])
  {
    hide Bucket;
    if |table[h].items| == 2 * quality {
      table[h] := table[h].(items := table[h].items[quality..]);
    }
    table[h] := Hlist(table[h].items + [i], Grown(table[h].capacity, |table[h].items|));
    assert (starts + [i])[..|starts|] == starts;
  }

  /** The lazy choice: the longest match in the bucket of position i, unless the bucket of the next
      position has a longer one for it. */
  ghost predicate LazyChoice(here: seq<nat>, next: seq<nat>, data: seq<Byte>, i: nat, best: nat, bestloc: Option<nat>)
  {
    && i + 1 < |data| && (forall j :: 0 <= j < |here| ==> here[j] < i) && (forall j :: 0 <= j < |next| ==> next[j] <= i)
    && exists longest, at ::
         && Longest(here, data, i, |here|, longest, at)
         && if at.Some? && !Better(next, data, i, longest) then best == longest && bestloc == at
            else bestloc == None
  }

  /** The lazy choice at position i, after these positions were entered. */
  ghost predicate ChoiceAt(data: seq<Byte>, quality: nat, starts: seq<nat>, i: nat, best: nat, bestloc: Option<nat>)
  {
    && Positions(data, starts, i) && i + 3 < |data|
    && LazyChoice(Filled(data, quality, Bucket(data, i), starts).items,
                  Filled(data, quality, Bucket(data, i + 1), starts + [i]).items, data, i, best, bestloc)
    && (bestloc.Some? ==> IsMatch(data, bestloc.value, i, best))
  }

  /** The choice is determined by the data and what was entered. */
  lemma ChoiceIsDetermined(data: seq<Byte>, quality: nat, starts: seq<nat>, i: nat,
                           best: nat, loc: Option<nat>, best': nat, loc': Option<nat>)
    requires ChoiceAt(data, quality, starts, i, best, loc) && ChoiceAt(data, quality, starts, i, best', loc')
    ensures loc == loc' && (loc.Some? ==> best == best')
  {
    hide Bucket, Filled, Longest, Better;
    var here := Filled(data, quality, Bucket(data, i), starts).items;
    var next := Filled(data, quality, Bucket(data, i + 1), starts + [i]).items;
    var longest, at :| Longest(here, data, i, |here|, longest, at)
      && if at.Some? && !Better(next, data, i, longest) then best == longest && loc == at else loc == None;
    var longest', at' :| Longest(here, data, i, |here|, longest', at')
      && if at'.Some? && !Better(next, data, i, longest') then best' == longest' && loc' == at' else loc' == None;
    LongestIsUnique(here, data, i, longest, at, longest', at');
  }

  /** What to write at position i: a match, or nothing but the literal. */
  method Choose(table: array<Hlist>, data: seq<Byte>, quality: nat, i: nat, ghost starts: seq<nat>)
      returns (best: nat, bestloc: Option<nat>)
    requires TableOk(table, data, quality, starts) && Positions(data, starts, i)
    requires i + 3 < |data| && 1 <= quality
    modifies table
    ensures TableOk(table, data, quality, starts + [i]) && Positions(data, starts + [i], i + 1)
    ensures ChoiceAt(data, quality, starts, i, best, bestloc)
  {
    hide Bucket, Longest, Better, Filled;
    var h := Bucket(data, i);
    FilledBounds(data, quality, h, starts, i);
    best, bestloc := BestMatch(table[h].items, data, i);
    ghost var here := table[h].items;
    assert Longest(here, data, i, |here|, best, bestloc);
    Enter(table, h, data, quality, i, starts);
    var next := Bucket(data, i + 1);
    FilledBounds(data, quality, next, starts + [i], i + 1);
    if bestloc.Some? {
      var better := BetterNext(table[next].items, data, i, best);
      if better {
        bestloc := None;
      }
    }
  }
}
