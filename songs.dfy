/**
 * The Song record (Song.java): four string fields and the list of playlist
 * names it was created with. Song.java has no setters; the model treats a
 * song as a value (the list getPlaylists hands out is not modelled).
 * The comparators that MusicLibrary.java and Playlist.java sort songs with
 * are defined here too, as orders on a song's fields.
 */
module Songs {
  import opened Sorting
  import opened Strings

  /** A possibly absent value; `None` stands for Java's `null`. */
  datatype Option<T> = None | Some(value: T)

  datatype Song = Song(artist: string, title: string, album: string, genre: string, playlists: seq<string>)

  /**
   * `new Song(artist, title, album, genre, playlists)`: a null array becomes an
   * empty list, otherwise the list is a copy of the array in its given order.
   */
  function NewSong(artist: string, title: string, album: string, genre: string, names: Option<seq<string>>): (s: Song)
    ensures s.artist == artist && s.title == title && s.album == album && s.genre == genre
    ensures names.None? ==> s.playlists == []
    ensures names.Some? ==> s.playlists == names.value
  {
    Song(artist, title, album, genre, if names.Some? then names.value else [])
  }

  /** `Song.equals`: all four fields and the playlist list, order included. */
  function Equals(a: Song, b: Song): (r: bool)
    ensures r <==> a == b
  {
    a.artist == b.artist && a.title == b.title && a.album == b.album &&
    a.genre == b.genre && a.playlists == b.playlists
  }

  /** Element-wise `Song.equals` over two lists, as `List.equals` compares them. */
  function SameSongs(xs: seq<Song>, ys: seq<Song>): (r: bool)
    ensures r <==> xs == ys
  {
    if xs == [] || ys == [] then xs == ys
    else
      assert xs == [xs[0]] + xs[1..] && ys == [ys[0]] + ys[1..];
      Equals(xs[0], ys[0]) && SameSongs(xs[1..], ys[1..])
  }

  /** The names joined by ", ", as `AbstractCollection.toString` joins them. */
  function JoinComma(names: seq<string>): string {
    if names == [] then ""
    else if |names| == 1 then names[0]
    else names[0] + ", " + JoinComma(names[1..])
  }

  /** The names as `List.toString` prints them: `[a, b, c]`. */
  function NamesText(names: seq<string>): string {
    if names == [] then "[]" else "[" + JoinComma(names) + "]"
  }

  /** `Song.toString`: the text ends with the playlist names sorted, whatever their stored order. */
  function ToString(s: Song): (r: string)
    ensures var tail := NamesText(Sort(s.playlists, Le)) + "]";
      |tail| <= |r| && r[|r| - |tail|..] == tail
  {
    var head := "Song [artist=" + s.artist + ", title=" + s.title + ", album=" + s.album +
      ", genre=" + s.genre + ", playlists=";
    var tail := NamesText(Sort(s.playlists, Le)) + "]";
    assert (head + tail)[|head|..] == tail;
    head + tail
  }

  /** Songs that differ only in the order of their stored playlist names print the same. */
  lemma ToStringIgnoresPlaylistOrder(s: Song, t: Song)
    requires s.artist == t.artist && s.title == t.title && s.album == t.album && s.genre == t.genre
    requires multiset(s.playlists) == multiset(t.playlists)
    ensures ToString(s) == ToString(t)
  {
    SortStrings(s.playlists, t.playlists);
    assert |s.playlists| == |multiset(s.playlists)| == |multiset(t.playlists)| == |t.playlists|;
  }

  /**
   * The string the console test expects for a song added without playlists,
   * written as the pieces of the format.
   */
  lemma ToStringWithoutPlaylists()
    ensures ToString(Song("Johnny Cash", "I Walk the Line", "The Broadcast Archive (Live)", "Blues", []))
         == "Song [artist=" + "Johnny Cash" + ", title=" + "I Walk the Line" + ", album=" + "The Broadcast Archive (Live)"
            + ", genre=" + "Blues" + ", playlists=" + "[]" + "]"
  {
  }

  /**
   * The string the console test expects (written as the pieces of the
   * format) for a song whose names are stored as Tunes, Country Classics:
   * they print sorted.
   */
  lemma ToStringSortsPlaylists()
    ensures ToString(Song("Johnny Cash", "I Walk the Line", "The Broadcast Archive (Live)", "Blues", ["Tunes", "Country Classics"]))
         == "Song [artist=" + "Johnny Cash" + ", title=" + "I Walk the Line" + ", album=" + "The Broadcast Archive (Live)"
            + ", genre=" + "Blues" + ", playlists=" + ("[" + ("Country Classics" + ", " + "Tunes") + "]") + "]"
  {
    assert !Le("Tunes", "Country Classics");
    var names: seq<string> := ["Country Classics", "Tunes"];
    assert Sort(["Tunes", "Country Classics"], Le) == names by {
      assert Sort(["Country Classics"], Le) == ["Country Classics"];
    }
    assert names[1..] == ["Tunes"];
    assert JoinComma(names) == "Country Classics" + ", " + "Tunes";
  }

  /** The three sort orders: a primary key and two tie-breakers. */
  datatype Order = ByTitle | ByArtist | ByGenre

  /**
   * The fields an order compares, in the order it compares them: the order's
   * own field first, and always artist, title and genre, never the album.
   */
  function Key(o: Order, s: Song): (r: (string, string, string))
    ensures r.0 == (match o case ByTitle => s.title case ByArtist => s.artist case ByGenre => s.genre)
    ensures multiset{r.0, r.1, r.2} == multiset{s.artist, s.title, s.genre}
  {
    match o
    case ByTitle => (s.title, s.artist, s.genre)
    case ByArtist => (s.artist, s.title, s.genre)
    case ByGenre => (s.genre, s.artist, s.title)
  }

  /** A chained comparator `<= 0`: the first field that differs decides. */
  predicate KeyLe(a: (string, string, string), b: (string, string, string))
    ensures a == b ==> KeyLe(a, b)
    ensures a.0 != b.0 ==> (KeyLe(a, b) <==> Le(a.0, b.0))
    ensures KeyLe(a, b) ==> Le(a.0, b.0)
  {
    LeTotal(a.2, a.2);
    LeTotal(a.0, b.0);
    if a.0 != b.0 then Le(a.0, b.0)
    else if a.1 != b.1 then Le(a.1, b.1)
    else Le(a.2, b.2)
  }

  /** `Comparator.comparing(...).thenComparing(...)` on songs: reflexive, and songs with equal keys tie. */
  function Comparator(o: Order): (r: (Song, Song) -> bool)
    ensures forall a: Song :: r(a, a)
    ensures forall a, b :: Key(o, a) == Key(o, b) ==> r(a, b) && r(b, a)
  {
    (a: Song, b: Song) => KeyLe(Key(o, a), Key(o, b))
  }

  lemma KeyLeTotalOrder(a: (string, string, string), b: (string, string, string), c: (string, string, string))
    ensures KeyLe(a, b) || KeyLe(b, a)
    ensures KeyLe(a, b) && KeyLe(b, c) ==> KeyLe(a, c)
    ensures KeyLe(a, b) && KeyLe(b, a) ==> a == b
  {
    LeTotal(a.0, b.0); LeTotal(a.1, b.1); LeTotal(a.2, b.2);
    if KeyLe(a, b) && KeyLe(b, c) {
      if a.0 != b.0 && b.0 != c.0 {
        LeTransitive(a.0, b.0, c.0);
        if a.0 == c.0 { LeAntisymmetric(a.0, b.0); }
      } else if a.0 == b.0 && b.0 == c.0 {
        if a.1 != b.1 && b.1 != c.1 {
          LeTransitive(a.1, b.1, c.1);
          if a.1 == c.1 { LeAntisymmetric(a.1, b.1); }
        } else if a.1 == b.1 && b.1 == c.1 {
          LeTransitive(a.2, b.2, c.2);
        }
      }
    }
    if KeyLe(a, b) && KeyLe(b, a) {
      if a.0 != b.0 { LeAntisymmetric(a.0, b.0); }
      else if a.1 != b.1 { LeAntisymmetric(a.1, b.1); }
      else { LeAntisymmetric(a.2, b.2); }
    }
  }

  /** Each comparator is a valid sort order; two songs tie exactly when their compared fields are equal. */
  lemma ComparatorIsTotalPreorder(o: Order)
    ensures TotalPreorder(Comparator(o))
    ensures forall a, b :: Tie(Comparator(o), a, b) <==> Key(o, a) == Key(o, b)
  {
    var le := Comparator(o);
    forall a, b ensures le(a, b) || le(b, a) {
      KeyLeTotalOrder(Key(o, a), Key(o, b), Key(o, b));
    }
    forall a, b, c | le(a, b) && le(b, c) ensures le(a, c) {
      KeyLeTotalOrder(Key(o, a), Key(o, b), Key(o, c));
    }
    forall a, b ensures Tie(le, a, b) <==> Key(o, a) == Key(o, b) {
      KeyLeTotalOrder(Key(o, a), Key(o, b), Key(o, b));
      LeTotal(Key(o, a).2, Key(o, a).2);
    }
  }

  /** Songs that differ only in album (or playlists) tie under every order. */
  lemma AlbumOnlyTies(o: Order, a: Song, b: Song)
    requires a.artist == b.artist && a.title == b.title && a.genre == b.genre
    ensures Tie(Comparator(o), a, b)
  {
    ComparatorIsTotalPreorder(o);
  }

  /**
   * Sorting songs under a comparator (List.sort) gives a sorted rearrangement
   * in which songs that tie keep their relative order, and sorting again
   * changes nothing.
   */
  lemma SortSongs(o: Order, s: seq<Song>)
    ensures multiset(Sort(s, Comparator(o))) == multiset(s)
    ensures SortedBy(Sort(s, Comparator(o)), Comparator(o))
    ensures forall k :: Ties(Sort(s, Comparator(o)), Comparator(o), k) == Ties(s, Comparator(o), k)
    ensures Sort(Sort(s, Comparator(o)), Comparator(o)) == Sort(s, Comparator(o))
  {
    ComparatorIsTotalPreorder(o);
    SortSorted(s, Comparator(o));
    forall k ensures Ties(Sort(s, Comparator(o)), Comparator(o), k) == Ties(s, Comparator(o), k) {
      SortStable(s, Comparator(o), k);
    }
    SortIdempotent(s, Comparator(o));
  }
}
