/**
  The song collector: from the list of file names found under the music
  folder, keep the names matched by the regular expression `.mp3$`, read the
  tags of each through the tag reader, skip the files whose read fails and the
  records whose fields are all empty, and keep the rest in input order.

  The tag reader (the program's getSongData over the tag library) is a
  parameter: a function from a path to `Some(song)` or `None` for a failed read.
 */
module Collector {
  import opened Wrappers
  import opened Songs

  /**
    The regular expression `.mp3$` matched at position `i` of `name`: any
    character other than a newline, then `m`, `p`, `3`, then the end of the
    text (without the multi-line flag `$` matches only there).
   */
  ghost predicate PatternAt(name: string, i: nat) {
    i + 4 <= |name| && name[i] != '\n' && name[i + 1..i + 4] == "mp3" && i + 4 == |name|
  }

  /** regexp.MatchString is an unanchored search: some start position matches. */
  ghost predicate MatchesMp3Pattern(name: string) {
    exists i: nat :: PatternAt(name, i)
  }

  /** The decision the collector takes for each name; it agrees with the regular expression search. */
  function IsMp3Name(name: string): (b: bool)
    ensures b <==> MatchesMp3Pattern(name)
  {
    if |name| >= 4 && name[|name| - 4] != '\n' && name[|name| - 3..] == "mp3" then
      assert PatternAt(name, |name| - 4);
      true
    else
      false
  }

  /** What one file name contributes to the result: nothing, or its one song. */
  function Contribution(name: string, readTag: string -> Option<Song>): seq<Song> {
    if !IsMp3Name(name) then []
    else match readTag(name)
      case None => []
      case Some(song) => if IsBlank(song) then [] else [song]
  }

  /** The songs collected from `names`, as the collector's loop accumulates them. */
  function Collected(names: seq<string>, readTag: string -> Option<Song>): (songs: seq<Song>)
    ensures forall s :: s in songs ==> !IsBlank(s)
    ensures |songs| <= |names|
    decreases |names|
  {
    if names == [] then []
    else Collected(names[..|names| - 1], readTag) + Contribution(names[|names| - 1], readTag)
  }

  /** The names in `names` that the pattern accepts. */
  function Mp3Names(names: seq<string>): (r: seq<string>)
    ensures forall n :: n in r ==> IsMp3Name(n)
    ensures forall n :: n in names && IsMp3Name(n) ==> n in r
    decreases |names|
  {
    if names == [] then []
    else Mp3Names(names[..|names| - 1]) + (if IsMp3Name(names[|names| - 1]) then [names[|names| - 1]] else [])
  }

  /**
    The collector's loop: one pass over the file names, appending each
    accepted, successfully read, non-blank song.
   */
  method CollectSongsFromFileNames(fileNames: seq<string>, readTag: string -> Option<Song>)
    returns (songs: seq<Song>)
    ensures songs == Collected(fileNames, readTag)
  {
    songs := [];
    for i := 0 to |fileNames|
      invariant songs == Collected(fileNames[..i], readTag)
    {
      var file := fileNames[i];
      assert fileNames[..i + 1][..i] == fileNames[..i];
      if IsMp3Name(file) {
        var read := readTag(file);
        if read.None? {
          continue;
        }
        var song := read.value;
        if !(song.album == "" && song.artist == "" && song.title == "") {
          songs := songs + [song];
        }
      }
    }
    assert fileNames[..|fileNames|] == fileNames;
  }

  /** Collecting over two lists one after the other is collecting over each and concatenating. */
  lemma {:induction false} CollectedAppend(a: seq<string>, b: seq<string>, readTag: string -> Option<Song>)
    ensures Collected(a + b, readTag) == Collected(a, readTag) + Collected(b, readTag)
    decreases |b|
  {
    if b == [] {
      assert a + b == a;
    } else {
      var b' := b[..|b| - 1];
      assert (a + b)[..|a + b| - 1] == a + b';
      assert (a + b)[|a + b| - 1] == b[|b| - 1];
      CollectedAppend(a, b', readTag);
    }
  }

  /** A file whose tag read fails contributes nothing and the files after it are still processed. */
  lemma FailedReadIsSkipped(before: seq<string>, file: string, after: seq<string>, readTag: string -> Option<Song>)
    requires readTag(file) == None
    ensures Collected(before + [file] + after, readTag) == Collected(before + after, readTag)
  {
    assert Collected([file], readTag) == [] by {
      assert [file][..0] == [] && [file][0] == file;
      assert Contribution(file, readTag) == [];
    }
    assert Collected(before + [file], readTag) == Collected(before, readTag) by {
      CollectedAppend(before, [file], readTag);
    }
    CollectedAppend(before + [file], after, readTag);
    CollectedAppend(before, after, readTag);
  }

  /** Names the pattern rejects never reach the tag reader: what it returns for them cannot matter. */
  lemma {:induction false} ReaderSeesOnlyMp3Names(names: seq<string>, readTag: string -> Option<Song>, other: string -> Option<Song>)
    requires forall n :: IsMp3Name(n) ==> readTag(n) == other(n)
    ensures Collected(names, readTag) == Collected(names, other)
    decreases |names|
  {
    if names != [] {
      ReaderSeesOnlyMp3Names(names[..|names| - 1], readTag, other);
    }
  }

  /** `idx` records, for each collected song, the index of the file it was read from. */
  ghost predicate ReadFrom(songs: seq<Song>, names: seq<string>, readTag: string -> Option<Song>, idx: seq<nat>) {
    && |idx| == |songs|
    && (forall j :: 0 <= j < |idx| ==>
          idx[j] < |names| && IsMp3Name(names[idx[j]]) && readTag(names[idx[j]]) == Some(songs[j]))
    && (forall j, k :: 0 <= j < k < |idx| ==> idx[j] < idx[k])
  }

  /**
    Every collected song was read from an accepted file name, and the songs
    come in the order of their files: the result is a subsequence of the
    tag reads of the input list.
   */
  lemma {:induction false} CollectedKeepsOrder(names: seq<string>, readTag: string -> Option<Song>)
    returns (idx: seq<nat>)
    ensures ReadFrom(Collected(names, readTag), names, readTag, idx)
    decreases |names|
  {
    if names == [] {
      idx := [];
    } else {
      var init := names[..|names| - 1];
      var last := |names| - 1;
      var prev := CollectedKeepsOrder(init, readTag);
      var songs := Collected(init, readTag);
      assert Collected(names, readTag) == songs + Contribution(names[last], readTag);
      forall j | 0 <= j < |prev|
        ensures prev[j] < last && names[prev[j]] == init[prev[j]]
      {
      }
      if Contribution(names[last], readTag) == [] {
        idx := prev;
        assert Collected(names, readTag) == songs;
      } else {
        idx := prev + [last];
        var song := readTag(names[last]).value;
        assert Contribution(names[last], readTag) == [song];
        assert Collected(names, readTag) == songs + [song];
      }
    }
  }

  /** Conversely, every accepted, readable, non-blank file contributes its song. */
  lemma {:induction false} CollectedIsComplete(names: seq<string>, readTag: string -> Option<Song>, i: nat)
    requires i < |names| && IsMp3Name(names[i])
    requires readTag(names[i]).Some? && !IsBlank(readTag(names[i]).value)
    ensures readTag(names[i]).value in Collected(names, readTag)
    decreases |names|
  {
    if i < |names| - 1 {
      var init := names[..|names| - 1];
      assert init[i] == names[i];
      CollectedIsComplete(init, readTag, i);
    }
  }

  /** There are never more songs than file names the pattern accepts. */
  lemma {:induction false} CollectedBoundedByMp3Names(names: seq<string>, readTag: string -> Option<Song>)
    ensures |Collected(names, readTag)| <= |Mp3Names(names)|
    decreases |names|
  {
    if names != [] {
      CollectedBoundedByMp3Names(names[..|names| - 1], readTag);
    }
  }

  /** The wildcard `.` lets through names that do not have an ".mp3" extension, and the match is case-sensitive. */
  lemma PatternExamples()
    ensures IsMp3Name("song.mp3") && IsMp3Name("song_mp3") && IsMp3Name("xmp3")
    ensures !IsMp3Name("song.MP3") && !IsMp3Name("mp3") && !IsMp3Name("a\nmp3") && !IsMp3Name("song.mp3.txt")
  {
  }
}
