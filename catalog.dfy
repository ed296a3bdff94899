/**
 * The abstract state of a MusicLibrary and what each of its updating
 * operations does to it, as functions. The class in library.dfy is proved
 * to change its fields exactly as these functions say.
 */
module Catalog {
  import opened Sorting
  import opened Strings
  import opened Songs
  import opened LineCodec

  /** The library's exceptions: SongAlreadyExistsException, SongNotFoundException, PlaylistNotFoundException. */
  datatype Error = SongAlreadyExists | SongNotFound | PlaylistNotFound

  datatype Outcome = Done | Failed(error: Error)

  /** The songs by key, and the songs of each playlist by playlist name. */
  datatype State = State(songs: map<string, Song>, lists: map<string, seq<Song>>)

  const Empty := State(map[], map[])

  /** The key addSong files a song under: the four fields joined by `|`. */
  function SongKey(artist: string, title: string, album: string, genre: string): (k: string)
    ensures '|' in k
  {
    var k := artist + "|" + title + "|" + album + "|" + genre;
    assert k[|artist|] == '|';
    k
  }

  /** `x|y` splits back into `x` and `y` when `x` holds no `|`. */
  lemma BarSplit(x: string, y: string, x': string, y': string)
    requires '|' !in x && '|' !in x' && x + "|" + y == x' + "|" + y'
    ensures x == x' && y == y'
  {
    var c := x + "|" + y;
    assert forall i :: 0 <= i < |x| ==> c[i] == x[i];
    assert forall i :: 0 <= i < |x'| ==> c[i] == x'[i];
    assert c[|x|] == '|' && c[|x'|] == '|';
    assert |x| == |x'|;
    assert x == c[..|x|] && y == c[|x| + 1..];
    assert x' == c[..|x'|] && y' == c[|x'| + 1..];
  }

  /** When no field holds `|`, equal keys mean equal fields: the key identifies a song's fields. */
  lemma SongKeyInjective(a: string, t: string, al: string, g: string, a': string, t': string, al': string, g': string)
    requires '|' !in a && '|' !in t && '|' !in al && '|' !in a' && '|' !in t' && '|' !in al'
    ensures SongKey(a, t, al, g) == SongKey(a', t', al', g') <==> a == a' && t == t' && al == al' && g == g'
  {
    if SongKey(a, t, al, g) == SongKey(a', t', al', g') {
      assert SongKey(a, t, al, g) == a + "|" + (t + "|" + (al + "|" + g));
      assert SongKey(a', t', al', g') == a' + "|" + (t' + "|" + (al' + "|" + g'));
      BarSplit(a, t + "|" + (al + "|" + g), a', t' + "|" + (al' + "|" + g'));
      BarSplit(t, al + "|" + g, t', al' + "|" + g');
      BarSplit(al, g, al', g');
    }
  }

  function KeyOf(s: Song): string {
    SongKey(s.artist, s.title, s.album, s.genre)
  }

  /** Every stored song is filed under its own key. */
  ghost predicate Keyed(songs: map<string, Song>) {
    forall k :: k in songs ==> KeyOf(songs[k]) == k
  }

  /** `order` lists every stored song exactly once, in some order (a HashMap's iteration order). */
  ghost predicate Enumerates(order: seq<Song>, songs: map<string, Song>) {
    |order| == |songs| && forall s :: multiset(order)[s] == (if s in songs.Values then 1 else 0)
  }

  /** Under `Keyed`, a song is stored exactly when it sits under its own key. */
  lemma KeyedValues(songs: map<string, Song>, s: Song)
    requires Keyed(songs)
    ensures s in songs.Values <==> KeyOf(s) in songs && songs[KeyOf(s)] == s
  {
    if s in songs.Values {
      var k :| k in songs && songs[k] == s;
    }
  }

  /** The songs an enumeration lists are the stored songs. */
  lemma EnumeratedMembers(order: seq<Song>, songs: map<string, Song>, s: Song)
    requires Enumerates(order, songs)
    ensures s in order <==> s in songs.Values
  {
    assert s in order <==> multiset(order)[s] > 0;
  }

  /** A playlist's songs, or none when there is no such playlist. */
  function Get(lists: map<string, seq<Song>>, name: string): seq<Song> {
    if name in lists then lists[name] else []
  }

  /** getOrCreatePlaylist(name).addSong(s): that playlist, created if absent, gains `s` at its end. */
  function AppendOne(lists: map<string, seq<Song>>, name: string, s: Song): (r: map<string, seq<Song>>)
    ensures r.Keys == lists.Keys + {name}
    ensures r[name] == Get(lists, name) + [s]
    ensures forall n :: n in lists && n != name ==> r[n] == lists[n]
  {
    lists[name := Get(lists, name) + [s]]
  }

  /** AppendOne for each name in turn: the playlists are the old ones and the named ones. */
  function AppendAll(lists: map<string, seq<Song>>, names: seq<string>, s: Song): (r: map<string, seq<Song>>)
    ensures lists.Keys <= r.Keys
  {
    if names == [] then lists
    else
      var init, last := names[..|names| - 1], names[|names| - 1];
      assert names == init + [last];
      AppendOne(AppendAll(lists, init, s), last, s)
  }

  /**
   * The playlist named `n` ends up with one more copy of `s` per occurrence of
   * `n` in `names`; a playlist not named keeps its songs, and no other
   * playlist appears.
   */
  lemma AppendAllContents(lists: map<string, seq<Song>>, names: seq<string>, s: Song, n: string)
    ensures n in AppendAll(lists, names, s) <==> n in lists || n in names
    ensures Get(AppendAll(lists, names, s), n) == Get(lists, n) + Repeat(s, multiset(names)[n])
  {
    AppendAllSongs(lists, names, s, n);
  }

  lemma {:induction false} AppendAllSongs(lists: map<string, seq<Song>>, names: seq<string>, s: Song, n: string)
    ensures Get(AppendAll(lists, names, s), n) == Get(lists, n) + Repeat(s, multiset(names)[n])
  {
    if names == [] {
      assert Get(lists, n) + Repeat(s, 0) == Get(lists, n);
    } else {
      var init, last := names[..|names| - 1], names[|names| - 1];
      AppendAllSongs(lists, init, s, n);
      AppendAllLast(lists, names, s);
      AppendOneGet(AppendAll(lists, init, s), last, s, n);
      CountLast(names, n);
      RepeatGrows(Get(lists, n), Get(AppendAll(lists, init, s), n), Get(AppendAll(lists, names, s), n), s, multiset(init)[n], last == n);
    }
  }

  lemma CountLast(names: seq<string>, n: string)
    requires names != []
    ensures multiset(names)[n] == multiset(names[..|names| - 1])[n] + (if names[|names| - 1] == n then 1 else 0)
  {
    assert names == names[..|names| - 1] + [names[|names| - 1]];
  }

  lemma RepeatGrows(g: seq<Song>, before: seq<Song>, after: seq<Song>, s: Song, count: nat, more: bool)
    requires before == g + Repeat(s, count) && after == before + (if more then [s] else [])
    ensures after == g + Repeat(s, count + (if more then 1 else 0))
  {
    RepeatSnoc(s, count);
  }

  lemma AppendAllLast(lists: map<string, seq<Song>>, names: seq<string>, s: Song)
    requires names != []
    ensures AppendAll(lists, names, s) == AppendOne(AppendAll(lists, names[..|names| - 1], s), names[|names| - 1], s)
  {
  }

  lemma AppendOneGet(lists: map<string, seq<Song>>, name: string, s: Song, n: string)
    ensures Get(AppendOne(lists, name, s), n) == Get(lists, n) + (if name == n then [s] else [])
  {
    if name != n {
      assert Get(lists, n) + [] == Get(lists, n);
    }
  }

  lemma {:induction false} RepeatSnoc(s: Song, n: nat)
    ensures Repeat(s, n + 1) == Repeat(s, n) + [s]
  {
    if n > 0 {
      RepeatSnoc(s, n - 1);
    }
  }

  /** The playlist names addSong walks through: the array sorted, or none for a null array. */
  function SortedNames(names: Option<seq<string>>): seq<string> {
    if names.Some? then Sort(names.value, Le) else []
  }

  /**
   * addSong(artist, title, album, genre, names): rejects a song whose key is
   * taken; otherwise files the new song under its key and appends it to each
   * named playlist, creating the playlists that do not exist yet.
   */
  function Add(st: State, artist: string, title: string, album: string, genre: string, names: Option<seq<string>>): (r: (State, Outcome))
    ensures r.1 == Failed(SongAlreadyExists) <==> SongKey(artist, title, album, genre) in st.songs
    ensures r.1 == Done <==> SongKey(artist, title, album, genre) !in st.songs
    ensures r.1 != Done ==> r.0 == st
    ensures r.1 == Done ==>
      var key := SongKey(artist, title, album, genre);
      r.0.songs.Keys == st.songs.Keys + {key} &&
      r.0.songs[key] == NewSong(artist, title, album, genre, names) &&
      forall k :: k in st.songs ==> r.0.songs[k] == st.songs[k]
    ensures Keyed(st.songs) ==> Keyed(r.0.songs)
  {
    var key := SongKey(artist, title, album, genre);
    if key in st.songs then (st, Failed(SongAlreadyExists))
    else
      var song := NewSong(artist, title, album, genre, names);
      (State(st.songs[key := song], AppendAll(st.lists, SortedNames(names), song)), Done)
  }

  /** How a successful addSong changes the playlist named `n`. */
  lemma AddPlaylists(st: State, artist: string, title: string, album: string, genre: string, names: Option<seq<string>>, n: string)
    requires SongKey(artist, title, album, genre) !in st.songs
    ensures var count := if names.Some? then multiset(names.value)[n] else 0;
            var after := Add(st, artist, title, album, genre, names).0.lists;
            (n in after <==> n in st.lists || count > 0) &&
            Get(after, n) == Get(st.lists, n) + Repeat(NewSong(artist, title, album, genre, names), count)
  {
    var song := NewSong(artist, title, album, genre, names);
    var sorted := SortedNames(names);
    AppendAllContents(st.lists, sorted, song, n);
    if names.Some? {
      SortStrings(names.value, names.value);
      assert n in sorted <==> n in multiset(sorted);
    }
  }

  /** createPlaylist(name) and getOrCreatePlaylist(name): add an empty playlist unless one exists. */
  function Create(st: State, name: string): (r: State)
    ensures r.songs == st.songs && name in r.lists
    ensures name in st.lists ==> r == st
    ensures name !in st.lists ==> r.lists == st.lists[name := []]
  {
    if name in st.lists then st else State(st.songs, st.lists[name := []])
  }

  lemma CreateIdempotent(st: State, name: string)
    ensures Create(Create(st, name), name) == Create(st, name)
  {
  }

  /**
   * addSongToPlaylist(title, name): the playlist must exist (checked first),
   * then the song filed under the key `title`; the song is appended to that
   * playlist only.
   */
  function AddToPlaylist(st: State, title: string, name: string): (r: (State, Outcome))
    ensures name !in st.lists ==> r == (st, Failed(PlaylistNotFound))
    ensures name in st.lists && title !in st.songs ==> r == (st, Failed(SongNotFound))
    ensures r.1 == Done <==> name in st.lists && title in st.songs
    ensures r.0.songs == st.songs && r.0.lists.Keys == st.lists.Keys
    ensures r.1 == Done ==> r.0.lists[name] == st.lists[name] + [st.songs[title]]
    ensures forall n :: n in st.lists && n != name ==> r.0.lists[n] == st.lists[n]
  {
    if name !in st.lists then (st, Failed(PlaylistNotFound))
    else if title !in st.songs then (st, Failed(SongNotFound))
    else (State(st.songs, st.lists[name := st.lists[name] + [st.songs[title]]]), Done)
  }

  /** Every stored key holds a `|`, so a title without one never finds a song. */
  lemma TitleWithoutBarNeverFound(st: State, title: string, name: string)
    requires Keyed(st.songs) && '|' !in title && name in st.lists
    ensures AddToPlaylist(st, title, name) == (st, Failed(SongNotFound))
  {
  }

  /** Distinct songs can share a key when a field contains `|`; the second one is rejected. */
  lemma KeyCollision()
    ensures SongKey("a|b", "c", "d", "e") == SongKey("a", "b|c", "d", "e")
    ensures Add(Add(Empty, "a|b", "c", "d", "e", None).0, "a", "b|c", "d", "e", None).1 == Failed(SongAlreadyExists)
  {
  }

  /**
   * Every playlist a stored song names exists and holds that song: addSong
   * appends a new song to each playlist it names, and no operation removes a
   * song or a playlist. (The converse fails: see PlaylistNotInSongNames.)
   */
  ghost predicate Member(st: State) {
    forall k, n :: k in st.songs && n in st.songs[k].playlists ==> n in st.lists && st.songs[k] in st.lists[n]
  }

  lemma EmptyMember()
    ensures Member(Empty)
  {
  }

  lemma AddKeepsMember(st: State, artist: string, title: string, album: string, genre: string, names: Option<seq<string>>)
    ensures Member(st) ==> Member(Add(st, artist, title, album, genre, names).0)
  {
    var key := SongKey(artist, title, album, genre);
    if Member(st) && key !in st.songs {
      var r := Add(st, artist, title, album, genre, names).0;
      forall k, n | k in r.songs && n in r.songs[k].playlists ensures n in r.lists && r.songs[k] in r.lists[n] {
        if k == key {
          NewSongIsListed(st, artist, title, album, genre, names, n);
        } else {
          OldSongStaysListed(st, artist, title, album, genre, names, k, n);
        }
      }
    }
  }

  /** After a successful add, each playlist the new song names holds it. */
  lemma NewSongIsListed(st: State, artist: string, title: string, album: string, genre: string, names: Option<seq<string>>, n: string)
    requires SongKey(artist, title, album, genre) !in st.songs
    requires n in NewSong(artist, title, album, genre, names).playlists
    ensures var r := Add(st, artist, title, album, genre, names).0;
      n in r.lists && NewSong(artist, title, album, genre, names) in r.lists[n]
  {
    var r := Add(st, artist, title, album, genre, names).0;
    var song := NewSong(artist, title, album, genre, names);
    AddPlaylists(st, artist, title, album, genre, names, n);
    assert names.Some? && multiset(names.value)[n] > 0;
    assert Get(r.lists, n)[|Get(st.lists, n)|] == song;
  }

  /** An add keeps every playlist's earlier songs. */
  lemma OldSongStaysListed(st: State, artist: string, title: string, album: string, genre: string, names: Option<seq<string>>, k: string, n: string)
    requires Member(st) && k in st.songs && n in st.songs[k].playlists
    ensures var r := Add(st, artist, title, album, genre, names).0;
      n in r.lists && st.songs[k] in r.lists[n]
  {
    if SongKey(artist, title, album, genre) !in st.songs {
      AddPlaylists(st, artist, title, album, genre, names, n);
    }
  }

  lemma CreateKeepsMember(st: State, name: string)
    ensures Member(st) ==> Member(Create(st, name))
  {
  }

  lemma AddToPlaylistKeepsMember(st: State, title: string, name: string)
    ensures Member(st) ==> Member(AddToPlaylist(st, title, name).0)
  {
  }

  /**
   * addSongToPlaylist files the song in the playlist but leaves the song's own
   * list of names as it was.
   */
  lemma PlaylistNotInSongNames()
    ensures var key := SongKey("a", "b", "c", "d");
      var r := AddToPlaylist(Create(Add(Empty, "a", "b", "c", "d", None).0, "p"), key, "p");
      r.1 == Done && r.0.lists["p"] == [r.0.songs[key]] && "p" !in r.0.songs[key].playlists
  {
  }

  /** Every playlist of `before` is still there, its old songs a prefix of its new ones. */
  ghost predicate Kept(before: map<string, seq<Song>>, after: map<string, seq<Song>>) {
    forall n :: n in before ==> n in after && before[n] <= after[n]
  }

  lemma KeptTransitive(a: map<string, seq<Song>>, b: map<string, seq<Song>>, c: map<string, seq<Song>>)
    requires Kept(a, b) && Kept(b, c)
    ensures Kept(a, c)
  {
    forall n | n in a ensures n in c && a[n] <= c[n] {
      assert a[n] == b[n][..|a[n]|] && b[n] == c[n][..|b[n]|];
      assert c[n][..|b[n]|][..|a[n]|] == c[n][..|a[n]|];
    }
  }

  /** addSong only creates playlists and appends to them. */
  lemma AddKeepsLists(st: State, artist: string, title: string, album: string, genre: string, names: Option<seq<string>>)
    ensures Kept(st.lists, Add(st, artist, title, album, genre, names).0.lists)
  {
    if SongKey(artist, title, album, genre) !in st.songs {
      var after := Add(st, artist, title, album, genre, names).0.lists;
      forall n | n in st.lists ensures n in after && st.lists[n] <= after[n] {
        AddPlaylists(st, artist, title, album, genre, names, n);
      }
    }
  }

  /** A line loadMusicDb can read: it splits into at least four fields. */
  predicate Readable(line: string) {
    |Split(line)| >= 4
  }

  /** The result of loadMusicDb: all lines read, or stopped at a line with fewer than four fields. */
  datatype LoadResult = Loaded | Aborted

  /**
   * What loadMusicDb does with one line: `None` when the line has fewer than
   * four fields (the program throws), otherwise the state after addSong with
   * the parsed fields, which is unchanged for a duplicate.
   */
  function LoadLineStep(st: State, line: string): (r: Option<State>)
    ensures r.None? <==> !Readable(line)
    ensures r.Some? ==>
      var parts := Split(line);
      r.value == Add(st, parts[0], parts[1], parts[2], parts[3], Some(parts[4..])).0
    ensures r.Some? ==> forall k :: k in st.songs ==> k in r.value.songs && r.value.songs[k] == st.songs[k]
    ensures r.Some? && Keyed(st.songs) ==> Keyed(r.value.songs)
    ensures r.Some? && Member(st) ==> Member(r.value)
  {
    match ParseLine(line)
    case None => None
    case Some(s) =>
      AddKeepsMember(st, s.artist, s.title, s.album, s.genre, Some(s.playlists));
      Some(Add(st, s.artist, s.title, s.album, s.genre, Some(s.playlists)).0)
  }

  /**
   * loadMusicDb over the file's lines: each line is parsed and added, a
   * duplicate is skipped; a line with fewer than four fields throws out of
   * the load, leaving the songs of the earlier lines added.
   */
  function Load(st: State, lines: seq<string>): (r: (State, LoadResult))
    ensures r.1 == Loaded <==> forall i :: 0 <= i < |lines| ==> Readable(lines[i])
    ensures forall k :: k in st.songs ==> k in r.0.songs && r.0.songs[k] == st.songs[k]
    ensures Keyed(st.songs) ==> Keyed(r.0.songs)
    ensures Member(st) ==> Member(r.0)
    decreases |lines|
  {
    if lines == [] then (st, Loaded)
    else match LoadLineStep(st, lines[0])
      case None => (st, Aborted)
      case Some(next) =>
        ReadableCons(lines);
        Load(next, lines[1..])
  }

  /** A load only creates playlists and appends to them: every earlier playlist stays, its old songs first. */
  lemma {:induction false} LoadKeepsLists(st: State, lines: seq<string>)
    ensures Kept(st.lists, Load(st, lines).0.lists)
    decreases |lines|
  {
    if lines != [] {
      LoadStep(st, lines);
      var step := LoadLineStep(st, lines[0]);
      if step.Some? {
        var parts := Split(lines[0]);
        AddKeepsLists(st, parts[0], parts[1], parts[2], parts[3], Some(parts[4..]));
        LoadKeepsLists(step.value, lines[1..]);
        KeptTransitive(st.lists, step.value.lists, Load(step.value, lines[1..]).0.lists);
      }
    }
  }

  /** One line of the load: stop at an unreadable line, otherwise go on from the state it gives. */
  lemma LoadStep(st: State, lines: seq<string>)
    requires lines != []
    ensures LoadLineStep(st, lines[0]).None? ==> Load(st, lines) == (st, Aborted)
    ensures LoadLineStep(st, lines[0]).Some? ==> Load(st, lines) == Load(LoadLineStep(st, lines[0]).value, lines[1..])
  {
  }

  /** The load from line `i`, when that line is read into `next`, goes on from line `i + 1`. */
  lemma LoadAdvance(st: State, lines: seq<string>, i: nat, next: State)
    requires i < |lines| && LoadLineStep(st, lines[i]) == Some(next)
    ensures Load(st, lines[i..]) == Load(next, lines[i + 1..])
  {
    LoadStep(st, lines[i..]);
    assert lines[i..][1..] == lines[i + 1..];
  }

  /** The load from line `i`, when that line cannot be read, stops there with nothing changed. */
  lemma LoadAbort(st: State, lines: seq<string>, i: nat)
    requires i < |lines| && LoadLineStep(st, lines[i]) == None
    ensures Load(st, lines[i..]) == (st, Aborted)
  {
    LoadStep(st, lines[i..]);
  }

  lemma ReadableCons(lines: seq<string>)
    requires lines != []
    ensures (forall i :: 0 <= i < |lines| ==> Readable(lines[i])) <==>
            Readable(lines[0]) && forall i :: 0 <= i < |lines[1..]| ==> Readable(lines[1..][i])
  {
    var rest := lines[1..];
    if forall i :: 0 <= i < |lines| ==> Readable(lines[i]) {
      forall i | 0 <= i < |rest| ensures Readable(rest[i]) {
        assert rest[i] == lines[i + 1];
      }
    }
    if Readable(lines[0]) && forall i :: 0 <= i < |rest| ==> Readable(rest[i]) {
      forall i | 0 <= i < |lines| ensures Readable(lines[i]) {
        if i > 0 {
          assert lines[i] == rest[i - 1];
        }
      }
    }
  }

  /** A duplicate line changes nothing and the load goes on with the next line. */
  lemma LoadSkipsDuplicate(st: State, lines: seq<string>, s: Song)
    requires lines != [] && ParseLine(lines[0]) == Some(s) && KeyOf(s) in st.songs
    ensures Load(st, lines) == Load(st, lines[1..])
  {
  }

  lemma ParseFourFields()
    ensures ParseLine("a;b;c;d") == Some(Song("a", "b", "c", "d", []))
  {
    var s := Song("a", "b", "c", "d", []);
    assert FormatLine(s) == "a;b;c;d" by {
      assert NamesSuffix([]) == "";
    }
    assert Fields(s) == ["a", "b", "c", "d"];
    ParseFormat(s);
  }

  lemma ParseTwoFields()
    ensures ParseLine("x;y") == None
  {
    var line := "x;y";
    assert line == "x" + ";" + "y";
    PiecesCons("x", "y");
    PiecesSingle("y");
    var parts := ["x", "y"];
    assert Pieces(line) == parts;
    assert DropTrailingEmpty(parts) == parts by {
      assert parts[1] != "";
    }
    assert ';' in line by {
      assert line[1] == ';';
    }
  }

  /**
   * A well-formed line followed by a two-field line: the first song is added,
   * then the load stops instead of skipping the short line.
   */
  lemma LoadStopsAtShortLine()
    ensures Load(Empty, ["a;b;c;d", "x;y"]) == (State(map["a|b|c|d" := Song("a", "b", "c", "d", [])], map[]), Aborted)
  {
    var lines := ["a;b;c;d", "x;y"];
    var st := State(map["a|b|c|d" := Song("a", "b", "c", "d", [])], map[]);
    AddFirstLine();
    assert Load(Empty, lines) == Load(st, lines[1..]) by {
      ParseFourFields();
    }
    assert lines[1..] == ["x;y"];
    assert Load(st, ["x;y"]) == (st, Aborted) by {
      ParseTwoFields();
    }
  }

  lemma AddFirstLine()
    ensures Add(Empty, "a", "b", "c", "d", Some([])).0 == State(map["a|b|c|d" := Song("a", "b", "c", "d", [])], map[])
  {
    assert SongKey("a", "b", "c", "d") == "a|b|c|d";
    assert SortedNames(Some([])) == [];
  }

  /** The lines writeMusicDb writes, one per song of `order`. */
  function FormatAll(order: seq<Song>): (lines: seq<string>)
    ensures |lines| == |order| && forall i :: 0 <= i < |order| ==> lines[i] == FormatLine(order[i])
  {
    if order == [] then [] else [FormatLine(order[0])] + FormatAll(order[1..])
  }

  /** The songs of `order`, each added under its key, later ones last. */
  function AddAll(songs: map<string, Song>, order: seq<Song>): map<string, Song>
    decreases |order|
  {
    if order == [] then songs else AddAll(songs[KeyOf(order[0]) := order[0]], order[1..])
  }

  /** Loading written songs whose keys are new and distinct adds each of them and reads every line. */
  lemma {:induction false} LoadFormatted(st: State, order: seq<Song>)
    requires forall i :: 0 <= i < |order| ==> Writable(order[i]) && KeyOf(order[i]) !in st.songs
    requires forall i, j :: 0 <= i < j < |order| ==> KeyOf(order[i]) != KeyOf(order[j])
    ensures Load(st, FormatAll(order)).1 == Loaded
    ensures Load(st, FormatAll(order)).0.songs == AddAll(st.songs, order)
    decreases |order|
  {
    if order != [] {
      var s := order[0];
      ParseFormat(s);
      assert FormatAll(order)[1..] == FormatAll(order[1..]);
      var st' := Add(st, s.artist, s.title, s.album, s.genre, Some(s.playlists)).0;
      assert st'.songs == st.songs[KeyOf(s) := s];
      forall i | 0 <= i < |order[1..]| ensures Writable(order[1..][i]) && KeyOf(order[1..][i]) !in st'.songs {
        assert order[1..][i] == order[i + 1];
      }
      forall i, j | 0 <= i < j < |order[1..]| ensures KeyOf(order[1..][i]) != KeyOf(order[1..][j]) {
        assert order[1..][i] == order[i + 1] && order[1..][j] == order[j + 1];
      }
      LoadFormatted(st', order[1..]);
    }
  }

  /** Adding songs with distinct keys files each under its key and keeps the keys already there. */
  lemma {:induction false} AddAllContents(songs: map<string, Song>, order: seq<Song>)
    requires forall i, j :: 0 <= i < j < |order| ==> KeyOf(order[i]) != KeyOf(order[j])
    ensures forall k :: k in AddAll(songs, order) <==> k in songs || exists s :: s in order && KeyOf(s) == k
    ensures forall s :: s in order ==> AddAll(songs, order)[KeyOf(s)] == s
    ensures forall k :: k in songs && (forall s :: s in order ==> KeyOf(s) != k) ==> AddAll(songs, order)[k] == songs[k]
    decreases |order|
  {
    if order != [] {
      var s0 := order[0];
      forall i, j | 0 <= i < j < |order[1..]| ensures KeyOf(order[1..][i]) != KeyOf(order[1..][j]) {
        assert order[1..][i] == order[i + 1] && order[1..][j] == order[j + 1];
      }
      AddAllContents(songs[KeyOf(s0) := s0], order[1..]);
      assert order == [s0] + order[1..];
      forall s | s in order[1..] ensures KeyOf(s) != KeyOf(s0) {
        var j :| 0 <= j < |order[1..]| && order[1..][j] == s;
        assert order[j + 1] == s;
      }
    }
  }

  /** Distinct positions of an enumeration hold distinct songs. */
  lemma EnumerationDistinct(order: seq<Song>, songs: map<string, Song>, i: int, j: int)
    requires Enumerates(order, songs) && 0 <= i < j < |order|
    ensures order[i] != order[j]
  {
    var x := order[i];
    assert order == order[..j] + order[j..];
    assert multiset(order)[x] == multiset(order[..j])[x] + multiset(order[j..])[x];
    assert x in order[..j];
    assert order[j] in order[j..];
  }

  /**
   * Writing every stored song and loading the lines into an empty library
   * gives back the same songs, playlist names included, in whatever order the
   * lines were written, provided each song is writable.
   */
  lemma WriteThenLoad(songs: map<string, Song>, order: seq<Song>)
    requires Keyed(songs) && Enumerates(order, songs)
    requires forall s :: s in songs.Values ==> Writable(s)
    ensures Load(Empty, FormatAll(order)).1 == Loaded
    ensures Load(Empty, FormatAll(order)).0.songs == songs
  {
    EnumerationKeys(songs, order);
    LoadFormatted(Empty, order);
    AddAllOfEnumeration(songs, order);
  }

  /** Adding the songs of an enumeration to an empty map rebuilds the map. */
  lemma AddAllOfEnumeration(songs: map<string, Song>, order: seq<Song>)
    requires Keyed(songs) && Enumerates(order, songs)
    requires forall i, j :: 0 <= i < j < |order| ==> KeyOf(order[i]) != KeyOf(order[j])
    ensures AddAll(map[], order) == songs
  {
    AddAllKeeps(songs, order);
    AddAllAddsNothingElse(songs, order);
    SameEntries(AddAll(map[], order), songs);
  }

  lemma SameEntries(a: map<string, Song>, b: map<string, Song>)
    requires forall k :: k in b ==> k in a && a[k] == b[k]
    requires forall k :: k in a ==> k in b
    ensures a == b
  {
  }

  lemma AddAllKeeps(songs: map<string, Song>, order: seq<Song>)
    requires Keyed(songs) && Enumerates(order, songs)
    requires forall i, j :: 0 <= i < j < |order| ==> KeyOf(order[i]) != KeyOf(order[j])
    ensures forall k :: k in songs ==> k in AddAll(map[], order) && AddAll(map[], order)[k] == songs[k]
  {
    AddAllContents(map[], order);
    forall k | k in songs ensures k in AddAll(map[], order) && AddAll(map[], order)[k] == songs[k] {
      StoredIsListed(songs, order, k);
    }
  }

  lemma AddAllAddsNothingElse(songs: map<string, Song>, order: seq<Song>)
    requires Keyed(songs) && Enumerates(order, songs)
    requires forall i, j :: 0 <= i < j < |order| ==> KeyOf(order[i]) != KeyOf(order[j])
    ensures forall k :: k in AddAll(map[], order) ==> k in songs
  {
    AddAllContents(map[], order);
    forall k | k in AddAll(map[], order) ensures k in songs {
      var s :| s in order && KeyOf(s) == k;
      ListedIsStored(songs, order, s);
    }
  }

  lemma StoredIsListed(songs: map<string, Song>, order: seq<Song>, k: string)
    requires Enumerates(order, songs) && k in songs
    ensures songs[k] in order
  {
    assert multiset(order)[songs[k]] == 1;
  }

  lemma ListedIsStored(songs: map<string, Song>, order: seq<Song>, s: Song)
    requires Keyed(songs) && Enumerates(order, songs) && s in order
    ensures KeyOf(s) in songs && songs[KeyOf(s)] == s
  {
    assert multiset(order)[s] > 0;
    var k :| k in songs && songs[k] == s;
  }

  /** An enumeration of keyed songs holds writable songs with pairwise distinct keys. */
  lemma EnumerationKeys(songs: map<string, Song>, order: seq<Song>)
    requires Keyed(songs) && Enumerates(order, songs)
    requires forall s :: s in songs.Values ==> Writable(s)
    ensures forall i :: 0 <= i < |order| ==> Writable(order[i]) && KeyOf(order[i]) !in Empty.songs
    ensures forall i, j :: 0 <= i < j < |order| ==> KeyOf(order[i]) != KeyOf(order[j])
  {
    forall i | 0 <= i < |order| ensures order[i] in songs.Values {
      assert multiset(order)[order[i]] > 0;
    }
    forall i, j | 0 <= i < j < |order| ensures KeyOf(order[i]) != KeyOf(order[j]) {
      EnumerationDistinct(order, songs, i, j);
      var ki :| ki in songs && songs[ki] == order[i];
      var kj :| kj in songs && songs[kj] == order[j];
    }
  }
}
