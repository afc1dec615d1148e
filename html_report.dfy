/**
  The HTML report: one table row per song, concatenated in list order, put
  in place of the placeholder in the page template. Field text goes into the
  markup exactly as read from the tags; nothing is escaped.
 */
module HtmlReport {
  import opened Wrappers
  import opened GoStrings
  import opened Songs

  /** The marker in the page template where the rows go. */
  const Placeholder: string := "__HERE_GO_THE_TABLE_ROWS__"

  /**
    The markup a row is built from: what opens it, what separates two cells
    and what closes it. The lemmas below hold for any markup whose separator
    and closing text start with '<'; the program's own is `Html`.
   */
  datatype Markup = Markup(open: string, sep: string, close: string)

  const Html: Markup := Markup("<tr><td>", "</td><td>", "</td></tr>")

  predicate Delimited(m: Markup) {
    m.sep != [] && m.sep[0] == '<' && m.close != [] && m.close[0] == '<'
  }

  /** One song as a row of `m`, cells in the order title, artist, album. */
  function RowIn(m: Markup, song: Song): string {
    m.open + song.title + m.sep + song.artist + m.sep + song.album + m.close
  }

  /** One song as a table row: `<tr><td>`title`</td><td>`artist`</td><td>`album`</td></tr>`. */
  function Row(song: Song): string {
    RowIn(Html, song)
  }

  /** `render` applied to each song, the results concatenated in list order. */
  function Joined(render: Song -> string, songs: seq<Song>): string {
    if songs == [] then "" else render(songs[0]) + Joined(render, songs[1..])
  }

  /** The rows of all songs, in list order; no songs give the empty string. */
  function Rows(songs: seq<Song>): string {
    Joined(Row, songs)
  }

  lemma {:induction false} JoinedAppend(render: Song -> string, a: seq<Song>, b: seq<Song>)
    ensures Joined(render, a + b) == Joined(render, a) + Joined(render, b)
    decreases |a|
  {
    if a == [] {
      assert a + b == b;
    } else {
      assert (a + b)[1..] == a[1..] + b;
      JoinedAppend(render, a[1..], b);
    }
  }

  lemma RowsAppend(a: seq<Song>, b: seq<Song>)
    ensures Rows(a + b) == Rows(a) + Rows(b)
  {
    JoinedAppend(Row, a, b);
  }

  lemma RowsSingle(song: Song)
    ensures Rows([song]) == Row(song)
  {
    assert [song][0] == song && [song][1..] == [];
    assert Joined(Row, []) == "";
  }

  lemma JoinedSplit(render: Song -> string, songs: seq<Song>, i: nat)
    requires i < |songs|
    ensures Joined(render, songs) == Joined(render, songs[..i]) + render(songs[i]) + Joined(render, songs[i + 1..])
  {
    var t := songs[i..];
    assert Joined(render, t) == render(songs[i]) + Joined(render, songs[i + 1..]) by {
      assert t != [] && t[0] == songs[i] && t[1..] == songs[i + 1..];
    }
    assert Joined(render, songs) == Joined(render, songs[..i]) + Joined(render, t) by {
      JoinedAppend(render, songs[..i], t);
      assert songs[..i] + t == songs;
    }
  }

  /** The song at position `i` is the `i`-th row, with the rows of the songs before and after it on either side. */
  lemma RowsSplit(songs: seq<Song>, i: nat)
    requires i < |songs|
    ensures Rows(songs) == Rows(songs[..i]) + Row(songs[i]) + Rows(songs[i + 1..])
  {
    JoinedSplit(Row, songs, i);
  }

  /** The row count and the exact length: 36 characters of markup per song plus its fields. */
  lemma {:induction false} RowsLength(songs: seq<Song>)
    ensures |Rows(songs)| == FieldChars(songs) + 36 * |songs|
    decreases |songs|
  {
    if songs != [] {
      RowsLength(songs[1..]);
      assert |Row(songs[0])| == |songs[0].title| + |songs[0].artist| + |songs[0].album| + 36;
    }
  }

  /** The number of characters in all fields of all songs. */
  function FieldChars(songs: seq<Song>): nat {
    if songs == [] then 0
    else |songs[0].title| + |songs[0].artist| + |songs[0].album| + FieldChars(songs[1..])
  }

  /** The row-building loop, appending one row per song to a string builder. */
  method BuildTableRows(songs: seq<Song>) returns (rows: string)
    ensures rows == Rows(songs)
  {
    rows := "";
    for i := 0 to |songs|
      invariant rows == Rows(songs[..i])
    {
      RowsAppend(songs[..i], [songs[i]]);
      RowsSingle(songs[i]);
      assert songs[..i + 1] == songs[..i] + [songs[i]];
      rows := rows + Row(songs[i]);
    }
    assert songs[..|songs|] == songs;
  }

  /** The page: the rows replace the first placeholder in the template, and only that one. */
  function FillTemplate(template: string, rows: string): (page: string)
    ensures Absent(template, Placeholder) ==> page == template
    ensures forall k: nat :: FirstOccurrence(template, Placeholder, k) ==>
      page == template[..k] + rows + template[k + |Placeholder|..]
  {
    ReplaceFirst(template, Placeholder, rows)
  }

  /**
    A later placeholder that starts after the first one ends survives into
    the page, shifted by the difference in length between the rows and the
    placeholder. (One that overlaps the first is cut by the replacement.)
   */
  lemma LaterPlaceholderKept(template: string, rows: string, k: nat, j: nat)
    requires FirstOccurrence(template, Placeholder, k)
    requires OccursAt(template, Placeholder, j) && k + |Placeholder| <= j
    ensures OccursAt(FillTemplate(template, rows), Placeholder, j - |Placeholder| + |rows|)
  {
    var page := FillTemplate(template, rows);
    var p := |Placeholder|;
    var after := template[k + p..];
    assert page == template[..k] + rows + after;
    var j' := j - p + |rows|;
    assert page[j'..j' + p] == after[j - k - p..j - k] by {
      assert page[k + |rows|..] == after;
    }
    assert after[j - k - p..j - k] == template[j..j + p];
  }

  /** The text before the placeholder and after it reaches the page unchanged. */
  lemma FillKeepsSurroundings(template: string, rows: string, k: nat)
    requires FirstOccurrence(template, Placeholder, k)
    ensures var page := FillTemplate(template, rows);
      && |page| == |template| - |Placeholder| + |rows|
      && page[..k] == template[..k]
      && page[k..k + |rows|] == rows
      && page[k + |rows|..] == template[k + |Placeholder|..]
  {
  }

  // Reading rows back. This recovers the songs only when no field holds
  // a '<'; the rows are written without escaping.

  /** A field without '<', so that the end of its cell can be found. */
  predicate Plain(f: string) {
    forall i :: 0 <= i < |f| ==> f[i] != '<'
  }

  predicate PlainSong(song: Song) {
    Plain(song.title) && Plain(song.artist) && Plain(song.album)
  }

  predicate StartsWith(s: string, prefix: string) {
    |prefix| <= |s| && s[..|prefix|] == prefix
  }

  /** Splits `s` at its first '<'. */
  function SplitField(s: string): (p: (string, string))
    ensures p.0 + p.1 == s && Plain(p.0)
    ensures p.1 == [] || p.1[0] == '<'
  {
    if s == [] || s[0] == '<' then ("", s)
    else
      var (f, rest) := SplitField(s[1..]);
      assert s == [s[0]] + s[1..];
      ([s[0]] + f, rest)
  }

  lemma {:induction false} SplitFieldOf(f: string, tail: string)
    requires Plain(f) && tail != [] && tail[0] == '<'
    ensures SplitField(f + tail) == (f, tail)
    decreases |f|
  {
    if f == [] {
      assert f + tail == tail;
    } else {
      var s := f + tail;
      assert s[0] == f[0] && s[0] != '<';
      assert s[1..] == f[1..] + tail;
      SplitFieldOf(f[1..], tail);
      assert f == [f[0]] + f[1..];
    }
  }

  /** A cell's text up to the first '<', which must begin `after`; returns the text and what follows `after`. */
  function Cell(s: string, after: string): (r: Option<(string, string)>)
    ensures r.Some? ==> |r.value.1| + |after| <= |s|
  {
    var (f, rest) := SplitField(s);
    if StartsWith(rest, after) then Some((f, rest[|after|..])) else None
  }

  lemma CellOf(f: string, after: string, tail: string)
    requires Plain(f) && after != [] && after[0] == '<'
    ensures Cell(f + (after + tail), after) == Some((f, tail))
  {
    SplitFieldOf(f, after + tail);
    assert (after + tail)[..|after|] == after;
    assert (after + tail)[|after|..] == tail;
  }

  /** Reads one row of markup `m` off the front of `s`, returning the song and what follows the row. */
  function ParseRowIn(m: Markup, s: string): (r: Option<(Song, string)>)
    ensures r.Some? ==> |r.value.1| < |s|
  {
    if !StartsWith(s, m.open) || m.close == [] then None
    else match Cell(s[|m.open|..], m.sep)
      case None => None
      case Some((title, r1)) =>
        match Cell(r1, m.sep)
        case None => None
        case Some((artist, r2)) =>
          match Cell(r2, m.close)
          case None => None
          case Some((album, r3)) => Some((Song(artist, title, album), r3))
  }

  /** Reads a whole sequence of rows of markup `m`. */
  function ParseRowsIn(m: Markup, s: string): Option<seq<Song>>
    decreases |s|
  {
    if s == [] then Some([])
    else match ParseRowIn(m, s)
      case None => None
      case Some((song, rest)) =>
        match ParseRowsIn(m, rest)
        case None => None
        case Some(more) => Some([song] + more)
  }

  lemma ParseRowOfRow(m: Markup, song: Song, tail: string)
    requires Delimited(m) && PlainSong(song)
    ensures ParseRowIn(m, RowIn(m, song) + tail) == Some((song, tail))
  {
    var t3 := m.close + tail;
    var t2 := m.sep + (song.album + t3);
    var t1 := m.sep + (song.artist + t2);
    var s := RowIn(m, song) + tail;
    assert s == m.open + (song.title + t1);
    assert s[|m.open|..] == song.title + t1;
    CellOf(song.title, m.sep, song.artist + t2);
    CellOf(song.artist, m.sep, song.album + t3);
    CellOf(song.album, m.close, tail);
  }

  /** With no '<' in any field, rows read back as exactly the songs, one row each, in order. */
  lemma {:induction false} JoinedRoundTrip(m: Markup, songs: seq<Song>)
    requires Delimited(m)
    requires forall i :: 0 <= i < |songs| ==> PlainSong(songs[i])
    ensures ParseRowsIn(m, Joined(s => RowIn(m, s), songs)) == Some(songs)
    decreases |songs|
  {
    if songs != [] {
      var render := s => RowIn(m, s);
      ParseRowOfRow(m, songs[0], Joined(render, songs[1..]));
      JoinedRoundTrip(m, songs[1..]);
      assert songs == [songs[0]] + songs[1..];
    }
  }

  /** The program's table rows read back as the songs when no field holds a '<'. */
  lemma RowsRoundTrip(songs: seq<Song>)
    requires forall i :: 0 <= i < |songs| ==> PlainSong(songs[i])
    ensures ParseRowsIn(Html, Rows(songs)) == Some(songs)
  {
    JoinedRoundTrip(Html, songs);
    JoinedSameRender(Row, s => RowIn(Html, s), songs);
  }

  lemma {:induction false} JoinedSameRender(f: Song -> string, g: Song -> string, songs: seq<Song>)
    requires forall s :: f(s) == g(s)
    ensures Joined(f, songs) == Joined(g, songs)
    decreases |songs|
  {
    if songs != [] {
      JoinedSameRender(f, g, songs[1..]);
    }
  }

  /** Every song read back from rows has fields without '<'. */
  lemma {:induction false} ParsedSongsArePlain(m: Markup, s: string)
    ensures ParseRowsIn(m, s).Some? ==>
      forall i :: 0 <= i < |ParseRowsIn(m, s).value| ==> PlainSong(ParseRowsIn(m, s).value[i])
    decreases |s|
  {
    if s != [] && ParseRowIn(m, s).Some? {
      ParsedSongsArePlain(m, ParseRowIn(m, s).value.1);
    }
  }

  /** Conversely, once some field holds a '<', the rows no longer read back as the songs. */
  lemma RowsRoundTripNeedsPlainFields(songs: seq<Song>, i: nat)
    requires i < |songs| && !PlainSong(songs[i])
    ensures ParseRowsIn(Html, Rows(songs)) != Some(songs)
  {
    ParsedSongsArePlain(Html, Rows(songs));
  }

  /**
    Because fields are copied verbatim, a single song whose title holds
    table markup produces exactly the rows of two songs `a` and `b`.
   */
  lemma UnescapedFieldsAreAmbiguous(a: Song, b: Song)
    ensures var merged := Song(b.artist, a.title + Html.sep + a.artist + Html.sep + a.album + Html.close + Html.open + b.title, b.album);
      Rows([merged]) == Rows([a, b])
  {
    var m := Html;
    var merged := Song(b.artist, a.title + m.sep + a.artist + m.sep + a.album + m.close + m.open + b.title, b.album);
    RowsSingle(merged);
    RowsSingle(b);
    RowsAppend([a], [b]);
    RowsSingle(a);
    assert [a] + [b] == [a, b];
    MergedRow(m, a, b);
  }

  lemma MergedRow(m: Markup, a: Song, b: Song)
    ensures RowIn(m, Song(b.artist, a.title + m.sep + a.artist + m.sep + a.album + m.close + m.open + b.title, b.album))
         == RowIn(m, a) + RowIn(m, b)
  {
  }
}
