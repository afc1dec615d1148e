/** The song record the program builds from a file's tags. */
module Songs {

  /** One song: the three tag values the program reads, each possibly empty. */
  datatype Song = Song(artist: string, title: string, album: string)

  /** A record whose three fields are all empty carries nothing worth listing. */
  predicate IsBlank(song: Song) {
    song.album == "" && song.artist == "" && song.title == ""
  }
}
