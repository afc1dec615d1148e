/**
  The CSV report's layout: one record per song, in list order, with the
  fields title, artist, album. Quoting and escaping of the fields is the CSV
  writer's business and is not part of this model.
 */
module CsvReport {
  import opened Wrappers
  import opened Songs

  /** The record written for one song. */
  function Record(song: Song): seq<string> {
    [song.title, song.artist, song.album]
  }

  /** The records for all songs, in list order. */
  function Records(songs: seq<Song>): seq<seq<string>> {
    if songs == [] then [] else [Record(songs[0])] + Records(songs[1..])
  }

  /** Reading a record back: title, artist, album. */
  function SongOf(record: seq<string>): Option<Song> {
    if |record| == 3 then Some(Song(record[1], record[0], record[2])) else None
  }

  function SongsOf(records: seq<seq<string>>): Option<seq<Song>> {
    if records == [] then Some([])
    else match (SongOf(records[0]), SongsOf(records[1..]))
      case (Some(song), Some(more)) => Some([song] + more)
      case _ => None
  }

  /** Record `i` holds exactly the three fields of song `i`, in the order title, artist, album. */
  lemma {:induction false} RecordAt(songs: seq<Song>, i: nat)
    requires i < |songs|
    ensures |Records(songs)| == |songs|
    ensures Records(songs)[i] == [songs[i].title, songs[i].artist, songs[i].album]
    decreases |songs|
  {
    RecordsLength(songs);
    if i > 0 {
      RecordAt(songs[1..], i - 1);
    }
  }

  lemma {:induction false} RecordsLength(songs: seq<Song>)
    ensures |Records(songs)| == |songs|
    decreases |songs|
  {
    if songs != [] {
      RecordsLength(songs[1..]);
    }
  }

  /** Reading the records back gives the songs again, in the same order. */
  lemma {:induction false} RecordsRoundTrip(songs: seq<Song>)
    ensures SongsOf(Records(songs)) == Some(songs)
    decreases |songs|
  {
    if songs != [] {
      var rs := Records(songs);
      assert rs[0] == Record(songs[0]) && rs[1..] == Records(songs[1..]);
      RecordsRoundTrip(songs[1..]);
      assert songs == [songs[0]] + songs[1..];
    }
  }

  /** The loop that hands one record per song to the CSV writer, in list order. */
  method WriteRecords(songs: seq<Song>) returns (written: seq<seq<string>>)
    ensures written == Records(songs)
  {
    written := [];
    for k := 0 to |songs|
      invariant written + Records(songs[k..]) == Records(songs)
    {
      assert songs[k..][1..] == songs[k + 1..];
      written := written + [Record(songs[k])];
    }
    assert songs[|songs|..] == [];
  }
}
