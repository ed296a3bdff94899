/**
 * The MusicLibrary class (MusicLibrary.java): songs filed by key in one map,
 * playlists filed by name in another. Every updating method is proved to
 * change the abstract state exactly as the matching function of Catalog says;
 * the queries are proved against the stored songs directly.
 *
 * The iteration order of a HashMap is not specified, so wherever the program
 * walks `songs.values()` or `keySet()` the model picks the next entry with
 * `:|`, and the results are stated for every order that choice can produce.
 */
module Library {
  import opened Sorting
  import opened Strings
  import opened Songs
  import opened Playlists
  import opened LineCodec
  import opened Catalog

  /** `Arrays.sort` on an array of strings: sorted in place, same elements. */
  method SortInPlace(a: array<string>)
    modifies a
    ensures a[..] == Sort(old(a[..]), Le)
    ensures SortedBy(a[..], Le) && multiset(a[..]) == multiset(old(a[..]))
  {
    var sorted := Sort(a[..], Le);
    SortStrings(a[..], a[..]);
    assert |sorted| == |multiset(sorted)| == a.Length;
    forall i | 0 <= i < a.Length {
      a[i] := sorted[i];
    }
    assert a[..] == sorted;
  }

  /** `set.toArray()`: each element once, in some order. */
  method Enumerate<T>(s: set<T>) returns (r: seq<T>)
    ensures forall x :: x in r <==> x in s
    ensures forall i, j :: 0 <= i < j < |r| ==> r[i] != r[j]
  {
    r := [];
    var rest := s;
    while rest != {}
      invariant rest <= s
      invariant forall x :: x in r <==> x in s - rest
      invariant forall i, j :: 0 <= i < j < |r| ==> r[i] != r[j]
      decreases rest
    {
      var x :| x in rest;
      assert x !in r;
      r := r + [x];
      rest := rest - {x};
    }
  }

  /** The sort order `getAllSongsSorted` picks for `howSorted`, if any. */
  function OrderNamed(how: string): (r: Option<Order>)
    ensures r == Some(ByTitle) <==> how == "title"
    ensures r == Some(ByArtist) <==> how == "artist"
    ensures r == Some(ByGenre) <==> how == "genre"
  {
    if how == "title" then Some(ByTitle)
    else if how == "artist" then Some(ByArtist)
    else if how == "genre" then Some(ByGenre)
    else None
  }

  class MusicLibrary {
    var songs: map<string, Song>
    var playlists: map<string, Playlist>

    /** Each song sits under its own key, and no playlist object is filed under two names. */
    ghost predicate Valid()
      reads this
    {
      Keyed(songs) &&
      forall m, n :: m in playlists && n in playlists && m != n ==> playlists[m] != playlists[n]
    }

    /** The songs of each playlist, by name. */
    ghost function Lists(): map<string, seq<Song>>
      reads this, playlists.Values
    {
      map n | n in playlists :: playlists[n].songs
    }

    ghost function Model(): State
      reads this, playlists.Values
    {
      State(songs, Lists())
    }

    /** Playlists filed before are still filed under the same names; the others are new objects. */
    ghost predicate Grew(before: map<string, Playlist>)
      reads this
    {
      forall n :: n in before ==> n in playlists && playlists[n] == before[n]
    }

    /** A new library has no songs and no playlists. */
    constructor ()
      ensures Valid() && Model() == Empty
    {
      songs := map[];
      playlists := map[];
    }

    /** The playlist named `name`, created empty (and filed) when there is none. */
    method GetOrCreatePlaylist(name: string) returns (p: Playlist)
      requires Valid()
      modifies this
      ensures Valid() && Grew(old(playlists))
      ensures name in playlists && p == playlists[name]
      ensures name in old(playlists) ==> playlists == old(playlists)
      ensures name !in old(playlists) ==> playlists == old(playlists)[name := p] && fresh(p)
      ensures Model() == Create(old(Model()), name)
    {
      if name !in playlists {
        var created := new Playlist();
        playlists := playlists[name := created];
        assert Lists() == old(Lists())[name := []];
      }
      p := playlists[name];
    }

    /**
     * addSong: a song whose key is taken is rejected and nothing changes;
     * otherwise the song is filed, the caller's array is sorted in place and
     * the song is appended to each named playlist in sorted order. The song
     * keeps the names in the order the caller gave them.
     */
    method AddSong(artist: string, title: string, album: string, genre: string, names: array?<string>) returns (r: Outcome)
      requires Valid()
      modifies this, names, playlists.Values
      ensures Valid() && Grew(old(playlists))
      ensures forall n :: n in playlists && n !in old(playlists) ==> fresh(playlists[n])
      ensures (Model(), r) == Add(old(Model()), artist, title, album, genre, if names == null then None else Some(old(names[..])))
      ensures names != null ==> names[..] == if r == Done then Sort(old(names[..]), Le) else old(names[..])
    {
      var given := if names == null then None else Some(names[..]);
      var song := NewSong(artist, title, album, genre, given);
      var key := SongKey(artist, title, album, genre);
      if key in songs {
        return Failed(SongAlreadyExists);
      }
      ghost var lists0 := Lists();
      songs := songs[key := song];
      assert Lists() == lists0;
      if names != null {
        SortAndAppend(names, song);
      }
      r := Done;
    }

    /** The success path of addSong after filing: the caller's array is sorted, then the song appended to each named playlist. */
    method SortAndAppend(names: array<string>, song: Song)
      requires Valid()
      modifies this, names, playlists.Values
      ensures Valid() && Grew(old(playlists)) && songs == old(songs)
      ensures forall n :: n in playlists && n !in old(playlists) ==> fresh(playlists[n])
      ensures names[..] == Sort(old(names[..]), Le)
      ensures Lists() == AppendAll(old(Lists()), names[..], song)
    {
      ghost var lists0 := Lists();
      SortInPlace(names);
      assert Lists() == lists0 && Valid();
      AppendToAll(names, song);
    }

    /** The loop of addSong: the song is appended to the playlist of each name in turn. */
    method AppendToAll(names: array<string>, song: Song)
      requires Valid()
      modifies this, playlists.Values
      ensures Valid() && Grew(old(playlists)) && songs == old(songs)
      ensures forall n :: n in playlists && n !in old(playlists) ==> fresh(playlists[n])
      ensures Lists() == AppendAll(old(Lists()), names[..], song)
    {
      var i := 0;
      while i < names.Length
        invariant 0 <= i <= names.Length
        invariant Valid() && Grew(old(playlists)) && songs == old(songs)
        invariant forall n :: n in playlists && n !in old(playlists) ==> fresh(playlists[n])
        invariant Lists() == AppendAll(old(Lists()), names[..i], song)
      {
        AppendTo(names[i], song);
        AppendAllLast(old(Lists()), names[..i + 1], song);
        assert names[..i + 1][..i] == names[..i];
        i := i + 1;
      }
      assert names[..i] == names[..];
    }

    /** `getOrCreatePlaylist(name).addSong(song)`. */
    method AppendTo(name: string, song: Song)
      requires Valid()
      modifies this, playlists.Values
      ensures Valid() && Grew(old(playlists)) && songs == old(songs)
      ensures forall n :: n in playlists && n !in old(playlists) ==> fresh(playlists[n])
      ensures Lists() == AppendOne(old(Lists()), name, song)
    {
      var pl := GetOrCreatePlaylist(name);
      ghost var before := Lists();
      assert pl in old(playlists).Values || fresh(pl) by {
        if name in old(playlists) {
          assert old(playlists)[name] == pl;
        }
      }
      pl.AddSong(song);
      forall n | n in playlists ensures Lists()[n] == AppendOne(before, name, song)[n] {
        if n != name {
          assert playlists[n] != pl;
        }
      }
      assert Lists() == AppendOne(before, name, song);
    }

    /** createPlaylist: an empty playlist is added unless one of that name exists. */
    method CreatePlaylist(name: string)
      requires Valid()
      modifies this
      ensures Valid() && Grew(old(playlists))
      ensures name in old(playlists) ==> playlists == old(playlists)
      ensures name !in old(playlists) ==> playlists.Keys == old(playlists).Keys + {name} && fresh(playlists[name])
      ensures Model() == Create(old(Model()), name)
    {
      if name !in playlists {
        var created := new Playlist();
        playlists := playlists[name := created];
        assert Lists() == old(Lists())[name := []];
      }
    }

    /**
     * addSongToPlaylist: PlaylistNotFound when there is no such playlist, else
     * SongNotFound when no song is filed under `title` as a key, else the song
     * is appended to the playlist. The song's own list of names is not updated.
     */
    method AddSongToPlaylist(title: string, name: string) returns (r: Outcome)
      requires Valid()
      modifies playlists.Values
      ensures Valid()
      ensures (Model(), r) == AddToPlaylist(old(Model()), title, name)
    {
      if name !in playlists {
        return Failed(PlaylistNotFound);
      }
      if title !in songs {
        return Failed(SongNotFound);
      }
      var p := playlists[name];
      p.AddSong(songs[title]);
      assert Lists() == old(Lists())[name := old(Lists())[name] + [songs[title]]];
      r := Done;
    }

    /** getPlaylist: the playlist object itself (not a copy), or `None` for PlaylistNotFound. */
    method GetPlaylist(name: string) returns (r: Option<Playlist>)
      ensures r.Some? <==> name in playlists
      ensures r.Some? ==> r.value == playlists[name]
    {
      if name !in playlists {
        return None;
      }
      r := Some(playlists[name]);
    }

    /** getPlaylistNames: every playlist name once. */
    method GetPlaylistNames() returns (r: seq<string>)
      ensures forall n :: n in r <==> n in playlists
      ensures forall i, j :: 0 <= i < j < |r| ==> r[i] != r[j]
    {
      r := Enumerate(playlists.Keys);
    }

    /** getAllSongs: every stored song once, in the map's iteration order. */
    method GetAllSongs() returns (r: seq<Song>)
      requires Valid()
      ensures Enumerates(r, songs)
    {
      r := [];
      var rest := songs.Keys;
      while rest != {}
        invariant rest <= songs.Keys
        invariant |r| + |rest| == |songs|
        invariant forall s :: multiset(r)[s] == if KeyOf(s) in songs && KeyOf(s) !in rest && songs[KeyOf(s)] == s then 1 else 0
        decreases rest
      {
        var k :| k in rest;
        r := r + [songs[k]];
        rest := rest - {k};
      }
      forall s ensures multiset(r)[s] == if s in songs.Values then 1 else 0 {
        KeyedValues(songs, s);
      }
    }

    /** getAllArtists: every artist of a stored song, once. */
    method GetAllArtists() returns (r: seq<string>)
      requires Valid()
      ensures forall a :: a in r <==> exists s :: s in songs.Values && s.artist == a
      ensures forall i, j :: 0 <= i < j < |r| ==> r[i] != r[j]
    {
      var all := GetAllSongs();
      var artists: set<string> := {};
      var i := 0;
      while i < |all|
        invariant 0 <= i <= |all|
        invariant forall a :: a in artists <==> exists j :: 0 <= j < i && all[j].artist == a
      {
        artists := artists + {all[i].artist};
        i := i + 1;
      }
      r := Enumerate(artists);
      forall a ensures a in artists <==> exists s :: s in songs.Values && s.artist == a {
        if a in artists {
          var j :| 0 <= j < |all| && all[j].artist == a;
          EnumeratedMembers(all, songs, all[j]);
        }
        if s :| s in songs.Values && s.artist == a {
          EnumeratedMembers(all, songs, s);
          var j :| 0 <= j < |all| && all[j] == s;
        }
      }
    }

    /** getGenres: every genre of a stored song, once. */
    method GetGenres() returns (r: seq<string>)
      requires Valid()
      ensures forall g :: g in r <==> exists s :: s in songs.Values && s.genre == g
      ensures forall i, j :: 0 <= i < j < |r| ==> r[i] != r[j]
    {
      var all := GetAllSongs();
      var genres: set<string> := {};
      var i := 0;
      while i < |all|
        invariant 0 <= i <= |all|
        invariant forall g :: g in genres <==> exists j :: 0 <= j < i && all[j].genre == g
      {
        genres := genres + {all[i].genre};
        i := i + 1;
      }
      r := Enumerate(genres);
      forall g ensures g in genres <==> exists s :: s in songs.Values && s.genre == g {
        if g in genres {
          var j :| 0 <= j < |all| && all[j].genre == g;
          EnumeratedMembers(all, songs, all[j]);
        }
        if s :| s in songs.Values && s.genre == g {
          EnumeratedMembers(all, songs, s);
          var j :| 0 <= j < |all| && all[j] == s;
        }
      }
    }

    /** getSongsByArtist: each stored song by `artist` once, and no other song. */
    method GetSongsByArtist(artist: string) returns (r: seq<Song>)
      requires Valid()
      ensures forall s :: multiset(r)[s] == if s in songs.Values && s.artist == artist then 1 else 0
    {
      var all := GetAllSongs();
      r := [];
      var i := 0;
      while i < |all|
        invariant 0 <= i <= |all|
        invariant forall s :: multiset(r)[s] == if s.artist == artist then multiset(all[..i])[s] else 0
      {
        if all[i].artist == artist {
          r := r + [all[i]];
        }
        assert all[..i + 1] == all[..i] + [all[i]];
        i := i + 1;
      }
      assert all[..i] == all;
    }

    /** getSongsByGenre: each stored song of `genre` once, and no other song. */
    method GetSongsByGenre(genre: string) returns (r: seq<Song>)
      requires Valid()
      ensures forall s :: multiset(r)[s] == if s in songs.Values && s.genre == genre then 1 else 0
    {
      var all := GetAllSongs();
      r := [];
      var i := 0;
      while i < |all|
        invariant 0 <= i <= |all|
        invariant forall s :: multiset(r)[s] == if s.genre == genre then multiset(all[..i])[s] else 0
      {
        if all[i].genre == genre {
          r := r + [all[i]];
        }
        assert all[..i + 1] == all[..i] + [all[i]];
        i := i + 1;
      }
      assert all[..i] == all;
    }

    /**
     * getAllSongsSorted: "title", "artist" and "genre" give every stored song
     * once, sorted by that order; any other word gives nothing. The library
     * is not changed.
     */
    method GetAllSongsSorted(how: string) returns (r: seq<Song>)
      requires Valid()
      ensures how == "title" ==> Enumerates(r, songs) && SortedBy(r, Comparator(ByTitle))
      ensures how == "artist" ==> Enumerates(r, songs) && SortedBy(r, Comparator(ByArtist))
      ensures how == "genre" ==> Enumerates(r, songs) && SortedBy(r, Comparator(ByGenre))
      ensures how != "title" && how != "artist" && how != "genre" ==> r == []
    {
      var all := GetAllSongs();
      match OrderNamed(how)
      case None =>
        r := [];
      case Some(o) =>
        r := Sort(all, Comparator(o));
        SortSongs(o, all);
        assert |r| == |multiset(r)| == |all|;
    }

    /**
     * loadMusicDb over the lines of the file: each line is split at `;` and
     * its song added, a duplicate skipped; a line with fewer than four fields
     * ends the load with the songs of the earlier lines kept.
     */
    method LoadMusicDb(lines: seq<string>) returns (r: LoadResult)
      requires Valid()
      modifies this, playlists.Values
      ensures Valid() && Grew(old(playlists))
      ensures forall n :: n in playlists && n !in old(playlists) ==> fresh(playlists[n])
      ensures (Model(), r) == Load(old(Model()), lines)
    {
      var i := 0;
      while i < |lines|
        invariant 0 <= i <= |lines|
        invariant Valid() && Grew(old(playlists))
        invariant forall n :: n in playlists && n !in old(playlists) ==> fresh(playlists[n])
        invariant Load(old(Model()), lines) == Load(Model(), lines[i..])
      {
        assert forall p :: p in playlists.Values ==> p in old(playlists).Values || fresh(p);
        ghost var before := Model();
        ghost var filed := playlists;
        var read := LoadLine(lines[i]);
        forall n | n in old(playlists) ensures n in playlists && playlists[n] == old(playlists)[n] {
          assert filed[n] == old(playlists)[n];
        }
        forall n | n in playlists && n !in old(playlists) ensures fresh(playlists[n]) {
          if n in filed {
            assert playlists[n] == filed[n];
          }
        }
        if !read {
          LoadAbort(before, lines, i);
          return Aborted;
        }
        LoadAdvance(before, lines, i, Model());
        i := i + 1;
      }
      r := Loaded;
    }

    /**
     * The body of loadMusicDb's loop for one line: false (the program throws)
     * when the line has fewer than four fields, otherwise the song is added or,
     * as a duplicate, skipped.
     */
    method LoadLine(line: string) returns (read: bool)
      requires Valid()
      modifies this, playlists.Values
      ensures Valid() && Grew(old(playlists))
      ensures forall n :: n in playlists && n !in old(playlists) ==> fresh(playlists[n])
      ensures read <==> |Split(line)| >= 4
      ensures LoadLineStep(old(Model()), line) == if read then Some(Model()) else None
      ensures !read ==> Model() == old(Model())
    {
      var parts := Split(line);
      if |parts| < 4 {
        return false;
      }
      ghost var before := Model();
      var names := new string[|parts| - 4](j requires 0 <= j < |parts| - 4 => parts[4 + j]);
      assert names[..] == parts[4..];
      assert Model() == before;
      var outcome := AddSong(parts[0], parts[1], parts[2], parts[3], names);
      assert Model() == Add(before, parts[0], parts[1], parts[2], parts[3], Some(parts[4..])).0;
      read := true;
    }

    /**
     * writeMusicDb: one line per stored song, in the map's iteration order
     * (`order`). When every song is writable, loading the lines into an empty
     * library gives back the same songs.
     */
    method WriteMusicDb() returns (lines: seq<string>, ghost order: seq<Song>)
      requires Valid()
      ensures Enumerates(order, songs)
      ensures lines == FormatAll(order)
      ensures (forall s :: s in songs.Values ==> Writable(s)) ==>
                Load(Empty, lines).1 == Loaded && Load(Empty, lines).0.songs == songs
    {
      var all := GetAllSongs();
      order := all;
      lines := [];
      var i := 0;
      while i < |all|
        invariant 0 <= i <= |all|
        invariant lines == FormatAll(all[..i])
      {
        var line := WriteLine(all[i]);
        assert all[..i + 1] == all[..i] + [all[i]];
        lines := lines + [line];
        i := i + 1;
      }
      assert all[..i] == all;
      if forall s :: s in songs.Values ==> Writable(s) {
        WriteThenLoad(songs, order);
      }
    }
  }

  /** The line writeMusicDb writes for one song: the four fields, then `;name` per stored playlist name. */
  method WriteLine(song: Song) returns (line: string)
    ensures line == FormatLine(song)
  {
    line := song.artist + ";" + song.title + ";" + song.album + ";" + song.genre;
    var names := song.playlists;
    var j := 0;
    while j < |names|
      invariant 0 <= j <= |names|
      invariant line == song.artist + ";" + song.title + ";" + song.album + ";" + song.genre + NamesSuffix(names[..j])
    {
      NamesSuffixSnoc(names[..j], names[j]);
      assert names[..j + 1] == names[..j] + [names[j]];
      line := line + ";" + names[j];
      j := j + 1;
    }
    assert names[..j] == names;
  }
}
