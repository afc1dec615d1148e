/**
  The sorter: reorders the collected songs in place, ascending on the title
  or on the artist, with Go's string `<` as the comparison. The library sort
  the program calls is not stable, so the contract is "sorted and a
  permutation"; songs with equal keys may come out in any order.
 */
module Sorter {
  import opened GoStrings
  import opened Songs

  /** The field the comparator looks at. */
  function Key(song: Song, byTitle: bool): string {
    if byTitle then song.title else song.artist
  }

  /** `x` may stand before `y`: the comparator does not say `y` comes first. */
  predicate InOrder(x: Song, y: Song, byTitle: bool) {
    !Less(Key(y, byTitle), Key(x, byTitle))
  }

  /** Every neighbouring pair is in order: `!(s[i+1].Key < s[i].Key)`. */
  predicate Sorted(s: seq<Song>, byTitle: bool) {
    forall i :: 0 <= i < |s| - 1 ==> InOrder(s[i], s[i + 1], byTitle)
  }

  /** Every pair, not only neighbours, is in order. */
  ghost predicate SortedPairwise(s: seq<Song>, byTitle: bool) {
    forall i, j :: 0 <= i < j < |s| ==> InOrder(s[i], s[j], byTitle)
  }

  /** The neighbour-wise order implies the pairwise order. */
  lemma {:induction false} SortedIsPairwise(s: seq<Song>, byTitle: bool)
    requires Sorted(s, byTitle)
    ensures SortedPairwise(s, byTitle)
    decreases |s|
  {
    if |s| > 1 {
      var t := s[1..];
      assert Sorted(t, byTitle) by {
        forall i | 0 <= i < |t| - 1 ensures InOrder(t[i], t[i + 1], byTitle) {
          assert t[i] == s[i + 1] && t[i + 1] == s[i + 2];
        }
      }
      SortedIsPairwise(t, byTitle);
      forall i, j | 0 <= i < j < |s| ensures InOrder(s[i], s[j], byTitle) {
        if i > 0 {
          assert s[i] == t[i - 1] && s[j] == t[j - 1];
        } else if j > 1 {
          assert s[1] == t[0] && s[j] == t[j - 1];
          NotLessTransitive(Key(s[0], byTitle), Key(s[1], byTitle), Key(s[j], byTitle));
        }
      }
    }
  }

  /** The keys, in order. */
  function Keys(s: seq<Song>, byTitle: bool): seq<string> {
    seq(|s|, i requires 0 <= i < |s| => Key(s[i], byTitle))
  }

  /**
    Sorting is determined up to the order of songs with equal keys: any two
    sorted permutations of the same songs have the same sequence of keys.
   */
  lemma {:induction false} SortedKeysUnique(a: seq<Song>, b: seq<Song>, byTitle: bool)
    requires Sorted(a, byTitle) && Sorted(b, byTitle)
    requires multiset(a) == multiset(b)
    ensures Keys(a, byTitle) == Keys(b, byTitle)
  {
    SortedIsPairwise(a, byTitle);
    SortedIsPairwise(b, byTitle);
    KeyMultiset(a, b, byTitle);
    assert Ascending(Keys(a, byTitle)) && Ascending(Keys(b, byTitle));
    SortedStringsUnique(Keys(a, byTitle), Keys(b, byTitle));
  }

  /** Strings, each not after the next. */
  ghost predicate Ascending(ks: seq<string>) {
    forall i, j :: 0 <= i < j < |ks| ==> !Less(ks[j], ks[i])
  }

  /** Songs with the same multiset have keys with the same multiset. */
  lemma {:induction false} KeyMultiset(a: seq<Song>, b: seq<Song>, byTitle: bool)
    requires multiset(a) == multiset(b)
    ensures multiset(Keys(a, byTitle)) == multiset(Keys(b, byTitle))
    decreases |a|
  {
    if a != [] {
      assert a[0] in multiset(b);
      var j :| 0 <= j < |b| && b[j] == a[0];
      var a', b' := a[1..], b[..j] + b[j + 1..];
      assert multiset(a') == multiset(b') by {
        RemoveFirst(a);
        RemoveAt(b, j);
      }
      KeyMultiset(a', b', byTitle);
      KeysRemove(a, b, j, byTitle);
    }
  }

  /** One step of KeyMultiset: putting back the first song of `a`, found at `j` in `b`. */
  lemma KeysRemove(a: seq<Song>, b: seq<Song>, j: nat, byTitle: bool)
    requires a != [] && j < |b| && b[j] == a[0]
    requires multiset(Keys(a[1..], byTitle)) == multiset(Keys(b[..j] + b[j + 1..], byTitle))
    ensures multiset(Keys(a, byTitle)) == multiset(Keys(b, byTitle))
  {
    var ka, kb := Keys(a, byTitle), Keys(b, byTitle);
    assert Keys(a[1..], byTitle) == ka[1..] by {
      KeysSlice(a, 1, |a|, byTitle);
      assert a[1..|a|] == a[1..];
    }
    assert Keys(b[..j] + b[j + 1..], byTitle) == kb[..j] + kb[j + 1..] by {
      KeysSlice(b, 0, j, byTitle);
      KeysSlice(b, j + 1, |b|, byTitle);
      KeysConcat(b[..j], b[j + 1..], byTitle);
      assert b[j + 1..|b|] == b[j + 1..] && b[0..j] == b[..j];
    }
    RemoveFirst(ka);
    RemoveAt(kb, j);
  }

  lemma KeysSlice(s: seq<Song>, lo: nat, hi: nat, byTitle: bool)
    requires lo <= hi <= |s|
    ensures Keys(s[lo..hi], byTitle) == Keys(s, byTitle)[lo..hi]
  {
  }

  lemma KeysConcat(x: seq<Song>, y: seq<Song>, byTitle: bool)
    ensures Keys(x + y, byTitle) == Keys(x, byTitle) + Keys(y, byTitle)
  {
  }

  lemma RemoveFirst<T>(s: seq<T>)
    requires s != []
    ensures multiset(s) == multiset(s[1..]) + multiset{s[0]}
    ensures multiset(s[1..]) == multiset(s) - multiset{s[0]}
  {
    assert s == [s[0]] + s[1..];
  }

  lemma RemoveAt<T>(s: seq<T>, j: nat)
    requires j < |s|
    ensures multiset(s) == multiset(s[..j] + s[j + 1..]) + multiset{s[j]}
    ensures multiset(s[..j] + s[j + 1..]) == multiset(s) - multiset{s[j]}
  {
    assert s == s[..j] + [s[j]] + s[j + 1..];
  }

  /** Two ascending sequences of strings with the same elements are equal. */
  lemma {:induction false} SortedStringsUnique(xs: seq<string>, ys: seq<string>)
    requires Ascending(xs) && Ascending(ys)
    requires multiset(xs) == multiset(ys)
    ensures xs == ys
    decreases |xs|
  {
    if xs != [] {
      assert |ys| == |multiset(ys)| == |multiset(xs)| == |xs|;
      var x, y := xs[0], ys[0];
      assert y in multiset(xs) && x in multiset(ys);
      var i :| 0 <= i < |xs| && xs[i] == y;
      var j :| 0 <= j < |ys| && ys[j] == x;
      assert i > 0 ==> !Less(y, x);
      assert j > 0 ==> !Less(x, y);
      LessTotal(x, y);
      assert x == y;
      RemoveFirst(xs);
      RemoveFirst(ys);
      SortedStringsUnique(xs[1..], ys[1..]);
      assert xs == [x] + xs[1..] && ys == [y] + ys[1..];
    }
  }

  /** Two songs whose keys differ have one sorted order only, whichever order they were collected in. */
  lemma SortedTwoDistinct(x: Song, y: Song, songs: seq<Song>, byTitle: bool)
    requires Less(Key(x, byTitle), Key(y, byTitle))
    requires Sorted(songs, byTitle) && multiset(songs) == multiset([y, x])
    ensures songs == [x, y]
  {
    var expected := [x, y];
    assert Sorted(expected, byTitle) by {
      LessAsymmetric(Key(x, byTitle), Key(y, byTitle));
    }
    assert multiset(expected) == multiset([y, x]);
    SortedKeysUnique(songs, expected, byTitle);
    assert |songs| == 2 by {
      assert |multiset(songs)| == 2;
    }
    var ks := Keys(songs, byTitle);
    assert ks[0] == Key(x, byTitle) && ks[1] == Key(y, byTitle);
    LessIrreflexive(Key(x, byTitle));
    assert songs[0] in multiset(expected) && songs[1] in multiset(expected);
  }

  /** Position of a song in `songs[from..]` that no later song in that range is before. */
  method IndexOfFirst(songs: array<Song>, from: nat, byTitle: bool) returns (m: nat)
    requires from < songs.Length
    ensures from <= m < songs.Length
    ensures forall k :: from <= k < songs.Length ==> InOrder(songs[m], songs[k], byTitle)
  {
    m := from;
    LessIrreflexive(Key(songs[from], byTitle));
    var j := from + 1;
    while j < songs.Length
      invariant from <= m < j <= songs.Length
      invariant forall k :: from <= k < j ==> InOrder(songs[m], songs[k], byTitle)
    {
      if Less(Key(songs[j], byTitle), Key(songs[m], byTitle)) {
        LessIrreflexive(Key(songs[j], byTitle));
        forall k | from <= k < j ensures InOrder(songs[j], songs[k], byTitle) {
          if Less(Key(songs[k], byTitle), Key(songs[j], byTitle)) {
            LessTransitive(Key(songs[k], byTitle), Key(songs[j], byTitle), Key(songs[m], byTitle));
          }
        }
        m := j;
      }
      j := j + 1;
    }
  }

  /**
    In-place sort of the songs array (selection sort: the library sort the
    program calls is not part of this model, only what it guarantees).
   */
  method SortSongs(songs: array<Song>, byTitle: bool)
    modifies songs
    ensures Sorted(songs[..], byTitle)
    ensures multiset(songs[..]) == old(multiset(songs[..]))
  {
    var n := songs.Length;
    var i := 0;
    while i < n
      invariant 0 <= i <= n
      invariant multiset(songs[..]) == old(multiset(songs[..]))
      invariant forall p :: 0 <= p < i - 1 ==> InOrder(songs[p], songs[p + 1], byTitle)
      invariant forall p, q :: 0 <= p < i <= q < n ==> InOrder(songs[p], songs[q], byTitle)
    {
      var m := IndexOfFirst(songs, i, byTitle);
      Swap(songs, i, m);
      i := i + 1;
    }
  }

  /** Exchanges two songs; the array keeps its elements. */
  method Swap(songs: array<Song>, i: nat, m: nat)
    requires i <= m < songs.Length
    modifies songs
    ensures songs[i] == old(songs[m]) && songs[m] == old(songs[i])
    ensures forall k :: 0 <= k < songs.Length && k != i && k != m ==> songs[k] == old(songs[k])
    ensures multiset(songs[..]) == old(multiset(songs[..]))
  {
    songs[i], songs[m] := songs[m], songs[i];
  }
}
