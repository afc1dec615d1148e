/**
  The program's run from the list of file names onwards: collect the songs,
  sort them in place, and produce the report for the chosen format. The file
  system walk, the prompts and the writing of the output file are outside
  this model; the tag reader, the sort order, the format and the page
  template are parameters.
 */
module Pipeline {
  import opened Wrappers
  import opened Songs
  import opened Collector
  import opened Sorter
  import HtmlReport
  import CsvReport
  import GoStrings
  import Prompts

  /** The content of the output file. */
  datatype Report = CsvFile(records: seq<seq<string>>) | HtmlFile(page: string)

  /** What the program writes for a format: "csv" and "html" each have an emitter, anything else writes nothing. */
  function ReportFor(format: string, songs: seq<Song>, template: string): Option<Report> {
    if format == "csv" then Some(CsvFile(CsvReport.Records(songs)))
    else if format == "html" then Some(HtmlFile(HtmlReport.FillTemplate(template, HtmlReport.Rows(songs))))
    else None
  }

  /** Of the formats the format check accepts, "pdf" is the one that produces no file. */
  lemma OnlyPdfWritesNothing(format: string, songs: seq<Song>, template: string)
    requires Prompts.CheckFormat(format).Success?
    ensures ReportFor(format, songs, template).None? <==> format == "pdf"
    ensures format == "csv" ==> ReportFor(format, songs, template).value.CsvFile?
    ensures format == "html" ==> ReportFor(format, songs, template).value.HtmlFile?
  {
  }

  /**
    One run: the collected songs, sorted on the chosen key, and the report
    built from them.
   */
  method Run(files: seq<string>, readTag: string -> Option<Song>, byTitle: bool, format: string, template: string)
    returns (songs: seq<Song>, report: Option<Report>)
    ensures Sorted(songs, byTitle)
    ensures multiset(songs) == multiset(Collected(files, readTag))
    ensures report == ReportFor(format, songs, template)
  {
    var collected := CollectSongsFromFileNames(files, readTag);
    var a := new Song[|collected|](i requires 0 <= i < |collected| => collected[i]);
    assert a[..] == collected;
    SortSongs(a, byTitle);
    songs := a[..];
    report := None;
    if format == "csv" {
      var records := CsvReport.WriteRecords(songs);
      report := Some(CsvFile(records));
    }
    if format == "html" {
      var rows := HtmlReport.BuildTableRows(songs);
      report := Some(HtmlFile(HtmlReport.FillTemplate(template, rows)));
    }
  }

  /**
    A folder holding a.mp3 (title "Zeta", artist "A"), b.mp3 (title "Alpha",
    artist "B") and c.txt, sorted by title: whatever order the sort picks,
    the songs come out as Alpha then Zeta, and c.txt contributes nothing
    although the reader would return a song for it.
   */
  lemma ExampleRun(album1: string, album2: string, songs: seq<Song>)
    requires Sorted(songs, true)
    requires multiset(songs) == multiset(Collected(["a.mp3", "b.mp3", "c.txt"], ExampleReader(album1, album2)))
    ensures songs == [Song("B", "Alpha", album2), Song("A", "Zeta", album1)]
    ensures CsvReport.Records(songs) == [["Alpha", "B", album2], ["Zeta", "A", album1]]
  {
    var zeta, alpha := Song("A", "Zeta", album1), Song("B", "Alpha", album2);
    ExampleCollected(album1, album2);
    assert GoStrings.Less(alpha.title, zeta.title);
    SortedTwoDistinct(alpha, zeta, songs, true);
    CsvReport.RecordAt(songs, 0);
    CsvReport.RecordAt(songs, 1);
  }

  /** In the example folder the collector keeps a.mp3 and b.mp3, in that order. */
  lemma ExampleCollected(album1: string, album2: string)
    ensures Collected(["a.mp3", "b.mp3", "c.txt"], ExampleReader(album1, album2))
         == [Song("A", "Zeta", album1), Song("B", "Alpha", album2)]
  {
    var rt := ExampleReader(album1, album2);
    var names := ["a.mp3", "b.mp3", "c.txt"];
    assert names[..2] == ["a.mp3", "b.mp3"] && names[2] == "c.txt";
    assert ["a.mp3", "b.mp3"][..1] == ["a.mp3"];
    assert ["a.mp3"][..0] == [];
    assert !IsMp3Name("c.txt");
    assert IsMp3Name("a.mp3") && IsMp3Name("b.mp3");
    assert rt("a.mp3") == Some(Song("A", "Zeta", album1));
    assert rt("b.mp3") == Some(Song("B", "Alpha", album2));
  }

  /** The tag reader of ExampleRun: a.mp3, b.mp3 and c.txt read successfully, everything else fails. */
  function ExampleReader(album1: string, album2: string): string -> Option<Song> {
    name => if name == "a.mp3" then Some(Song("A", "Zeta", album1))
            else if name == "b.mp3" then Some(Song("B", "Alpha", album2))
            else if name == "c.txt" then Some(Song("C", "Aardvark", ""))
            else None
  }
}
