/**
 * A playlist (Playlist.java): an ordered list of songs that grows at the end
 * and can be re-sorted in place by artist or by title.
 */
module Playlists {
  import opened Sorting
  import opened Songs

  class Playlist {
    var songs: seq<Song>

    /** A new playlist is empty. */
    constructor ()
      ensures songs == []
    {
      songs := [];
    }

    /** Appends at the end; a song may appear more than once. */
    method AddSong(song: Song)
      modifies this
      ensures songs == old(songs) + [song]
    {
      songs := songs + [song];
    }

    /** The songs in their current order; the playlist itself is not changed. */
    method GetSongs() returns (r: seq<Song>)
      ensures r == songs
    {
      r := songs;
    }

    /** Sorts in place by artist, then title, then genre; the sort is stable. */
    method SortByArtist()
      modifies this
      ensures songs == Sort(old(songs), Comparator(ByArtist))
      ensures multiset(songs) == multiset(old(songs))
      ensures SortedBy(songs, Comparator(ByArtist))
      ensures forall k :: Ties(songs, Comparator(ByArtist), k) == Ties(old(songs), Comparator(ByArtist), k)
    {
      SortSongs(ByArtist, songs);
      songs := Sort(songs, Comparator(ByArtist));
    }

    /** Sorts in place by title, then artist, then genre; the sort is stable. */
    method SortByTitle()
      modifies this
      ensures songs == Sort(old(songs), Comparator(ByTitle))
      ensures multiset(songs) == multiset(old(songs))
      ensures SortedBy(songs, Comparator(ByTitle))
      ensures forall k :: Ties(songs, Comparator(ByTitle), k) == Ties(old(songs), Comparator(ByTitle), k)
    {
      SortSongs(ByTitle, songs);
      songs := Sort(songs, Comparator(ByTitle));
    }

    /** `Playlist.equals`: the same songs in the same order. */
    function Equals(other: Playlist): (r: bool)
      reads this, other
      ensures r <==> songs == other.songs
    {
      SameSongs(songs, other.songs)
    }
  }
}
