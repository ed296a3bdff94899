# Music library catalogue in Dafny

This project models the in-memory catalogue of a small Java music library
(`ADS-Exam-Files/src`).

The library has three classes:

- **`MusicLibrary`** keeps two hash maps: songs by a composite key
  `artist|title|album|genre`, and playlists by name. It offers the following:
  - adding a song, rejecting duplicates;
  - creating playlists, explicitly or implicitly, and appending songs to them;
  - queries by artist and by genre, and the distinct artists and genres;
  - a non-destructive sort of all songs under three lexicographic orders;
  - a one-line-per-song text format, read by `loadMusicDb` and written by `writeMusicDb`.
- **`Song`** has no setters and a fixed `toString` format. Its `getPlaylists`
  hands out the song's own list of names.
- **`Playlist`** is an append-only list of songs with two in-place sorts.

Modules, in dependency order:

- `Sorting` (sorting.dfy) holds one stable insertion sort, `Sort`, which is
  generic in the comparison. It stands for the three library sorts the program
  uses: `Arrays.sort`, `Collections.sort` and `List.sort`. `StableSortUnique`
  proves that any sorted, stable rearrangement of a sequence equals `Sort`'s
  result, so `Sort` gives exactly what the library sorts give.
- `Strings` (strings.dfy) holds `Le`, the order of `String.compareTo`, proved
  to be a total order.
- `Songs` (songs.dfy) holds the `Song` datatype, its constructor, `equals` and
  `toString`, and the three comparators on songs.
- `Playlists` (playlists.dfy) holds the `Playlist` class over a `seq<Song>`
  field.
- `LineCodec` (line_codec.dfy) holds `String.split(";")`, the line written per
  song, the line parsed per song, and the round trip between them.
- `Catalog` (catalog.dfy) holds the abstract state (`State`: songs by key, and
  the songs of each playlist by name). Each updating operation is a function on
  that state; the other lemmas about the catalogue live here too.
- `Library` (library.dfy) holds the `MusicLibrary` class. Its maps are fields,
  and the playlists are `Playlist` objects. Each updating method is proved to
  change `Model()` exactly as the matching `Catalog` function says. The queries
  are proved against the stored songs directly.

A hash map's iteration order is not specified. Where the program walks
`songs.values()` or a key set, the model picks the next entry with `:|`.
Results are then stated for every order: `Enumerates(order, songs)` says that
`order` lists each stored song exactly once.

The model follows the code where it differs from the doc comments and from
what one might expect:

- The doc comment of `loadMusicDb` says a song that cannot be added is skipped.
  The code skips only duplicates. A line with fewer than four fields throws out
  of the load, and the songs of earlier lines stay added (`Load`,
  `LoadStopsAtShortLine`).
- A song keeps its playlist names in the order the caller gave them. The song is
  built before `addSong` sorts the caller's array, and only `toString` prints
  the names sorted.
- `addSongToPlaylist` looks the title up among the composite keys, so a title
  without `|` never finds a song (`TitleWithoutBarNeverFound`). It also does not
  add the playlist's name to the song's own list.
- Two different songs collide when a field contains `|` (`KeyCollision`).
- A line whose last field is empty is not read back as written, because
  `split` drops trailing empty fields (`EmptyLastFieldIsLost`).
- A field holding `;`, a line break (`\n` or `\r`), or an empty last field
  breaks the file: `readLine` would split the line, or `split` would cut the
  fields differently. The round trip is proved for songs without these, the
  songs `Writable` admits.

## Model

| member | source | states |
|---|---|---|
| Sorting.Sort | ADS-Exam-Files/src/MusicLibrary.java:66 | sorting returns a rearrangement of its input (same multiset) |
| Sorting.SortSorted | ADS-Exam-Files/src/MusicLibrary.java:66 | for a total, transitive comparison the sorted result is in non-decreasing order |
| Sorting.SortStable | ADS-Exam-Files/src/Playlist.java:40 | the sort is stable: the elements tying with any `k` keep their relative order |
| Sorting.StableSortUnique | ADS-Exam-Files/src/Playlist.java:53 | two sorted sequences with the same ties in the same order are equal, so every stable sort gives `Sort`'s result |
| Sorting.SortedFixpoint | ADS-Exam-Files/src/Playlist.java:39-47 | an already sorted sequence is left as it is |
| Sorting.SortIdempotent | ADS-Exam-Files/src/Playlist.java:39-47 | sorting twice equals sorting once |
| Sorting.SortCanonical | ADS-Exam-Files/src/Song.java:74-75 | for an order in which only equal elements tie, the sorted result depends only on the multiset of the input |
| Sorting.TiesOfAntisymmetric | ADS-Exam-Files/src/Song.java:75 | under such an order the elements tying with `k` are exactly the copies of `k` |
| Strings.LeTotal | ADS-Exam-Files/src/Playlist.java:42 | any two strings compare one way or the other under `compareTo` |
| Strings.LeTransitive | ADS-Exam-Files/src/Playlist.java:42 | `compareTo <= 0` is transitive |
| Strings.LeAntisymmetric | ADS-Exam-Files/src/Playlist.java:42 | `compareTo` returns 0 only for equal strings |
| Strings.LeTotalPreorder | ADS-Exam-Files/src/MusicLibrary.java:66 | string order is a valid sort order |
| Strings.LeTiesAreEqual | ADS-Exam-Files/src/MusicLibrary.java:66 | under string order only equal strings tie |
| Strings.SortStrings | ADS-Exam-Files/src/Song.java:74-75 | sorting strings gives a sorted permutation that is the same for any two inputs with the same multiset |
| Songs.NewSong | ADS-Exam-Files/src/Song.java:31-41 | the four fields are stored as given; a null array gives no names, otherwise the names in the caller's order |
| Songs.Equals | ADS-Exam-Files/src/Song.java:83-93 | `equals` holds iff all four fields and the name list, order included, are equal (hence reflexive and symmetric) |
| Songs.SameSongs | ADS-Exam-Files/src/Playlist.java:66-72 | element-wise `equals` of two song lists holds iff the lists are equal |
| Songs.ToString | ADS-Exam-Files/src/Song.java:63-80 | the text ends with the stored names sorted, `[]` when there are none, then the closing `]`, whatever order the names are stored in |
| Songs.ToStringIgnoresPlaylistOrder | ADS-Exam-Files/src/Song.java:63-80 | two songs whose names differ only in order print the same |
| Songs.ToStringWithoutPlaylists | ADS-Exam-Files/src/MusicLibraryTester.java:43 | a song without names prints as the console test expects, with `playlists=[]` |
| Songs.ToStringSortsPlaylists | ADS-Exam-Files/src/MusicLibraryTester.java:59-67 | names stored as Tunes, Country Classics print as `[Country Classics, Tunes]` |
| Songs.Key | ADS-Exam-Files/src/MusicLibrary.java:282-294 | an order compares its own field first, and always exactly artist, title and genre (never the album) |
| Songs.KeyLe | ADS-Exam-Files/src/Playlist.java:41-46 | the chained comparison: equal keys compare `<= 0`; when the first fields differ they alone decide; a key `<=` another has its first field `<=` |
| Songs.Comparator | ADS-Exam-Files/src/Playlist.java:54-59 | the song comparator is reflexive, and two songs with the same compared fields tie both ways |
| Songs.KeyLeTotalOrder | ADS-Exam-Files/src/Playlist.java:40-46 | a chained three-field comparator is total and transitive, and ties only on equal keys |
| Songs.ComparatorIsTotalPreorder | ADS-Exam-Files/src/MusicLibrary.java:282-294 | each of the three orders is a valid sort order; two songs tie exactly when their compared fields are equal |
| Songs.AlbumOnlyTies | ADS-Exam-Files/src/Playlist.java:39-60 | songs differing only in album (or names) tie under every order |
| Songs.SortSongs | ADS-Exam-Files/src/Playlist.java:40 | sorting songs gives a sorted permutation, stable for every tie class, and sorting again changes nothing |
| Playlists.Playlist.constructor | ADS-Exam-Files/src/Playlist.java:16-18 | a new playlist is empty |
| Playlists.Playlist.AddSong | ADS-Exam-Files/src/Playlist.java:20-22 | the song is appended at the end, duplicates allowed |
| Playlists.Playlist.GetSongs | ADS-Exam-Files/src/Playlist.java:31-33 | the songs in their current order; the playlist is not changed |
| Playlists.Playlist.SortByArtist | ADS-Exam-Files/src/Playlist.java:39-47 | the new list is the old one stably sorted by (artist, title, genre): a permutation, non-decreasing, ties in their old order |
| Playlists.Playlist.SortByTitle | ADS-Exam-Files/src/Playlist.java:52-60 | the same for (title, artist, genre) |
| Playlists.Playlist.Equals | ADS-Exam-Files/src/Playlist.java:66-72 | two playlists are equal iff they hold the same songs in the same order |
| LineCodec.SemicolonIndex | ADS-Exam-Files/src/MusicLibrary.java:107 | the index of the first `;`, or the length when there is none |
| LineCodec.Pieces | ADS-Exam-Files/src/MusicLibrary.java:107 | the pieces between `;` separators, empty ones included: none holds `;` and joining them with `;` gives the line back |
| LineCodec.Split | ADS-Exam-Files/src/MusicLibrary.java:107 | no field holds `;`; a line without `;` is returned whole; otherwise the fields are the pieces up to the last non-empty one, and only empty pieces are dropped |
| LineCodec.DropTrailingEmpty | ADS-Exam-Files/src/MusicLibrary.java:107 | `split` keeps a prefix of the pieces, drops only empty pieces, and the last kept piece is not empty |
| LineCodec.ParseLine | ADS-Exam-Files/src/MusicLibrary.java:107-113 | no song iff the split line has fewer than four fields; otherwise the song's fields, then its names, are the split fields in order |
| LineCodec.FormatLine | ADS-Exam-Files/src/MusicLibrary.java:313-326 | the written line is the four fields and then the stored names, all joined with `;` |
| LineCodec.PiecesOfJoin | ADS-Exam-Files/src/MusicLibrary.java:107 | splitting pieces that hold no `;` at every `;` gives back those pieces: `Pieces` inverts joining |
| LineCodec.PiecesOfFormat | ADS-Exam-Files/src/MusicLibrary.java:313-326 | a written line splits into the song's fields when no field holds `;` |
| LineCodec.ParseFormat | ADS-Exam-Files/src/MusicLibrary.java:303-326 | a written line of a writable song (no field holds `;` or a line break, last field not empty) parses back to the same song, names in stored order |
| LineCodec.EmptyLastFieldIsLost | ADS-Exam-Files/src/MusicLibrary.java:107 | a song whose last field is empty is never read back as itself; with no names its line is even too short to load |
| Catalog.SongKey | ADS-Exam-Files/src/MusicLibrary.java:59 | a key always holds a `|` |
| Catalog.SongKeyInjective | ADS-Exam-Files/src/MusicLibrary.java:59 | when artist, title and album hold no `|`, two keys are equal iff all four fields are |
| Catalog.AppendOne | ADS-Exam-Files/src/MusicLibrary.java:49-52 | the named playlist exists afterwards and holds its old songs (none if it was new) followed by the song; every other playlist is unchanged |
| Catalog.AppendAll | ADS-Exam-Files/src/MusicLibrary.java:67-70 | no playlist disappears |
| Catalog.KeyedValues | ADS-Exam-Files/src/MusicLibrary.java:59-63 | when every song is stored under its own key, a song is stored iff it sits under its key |
| Catalog.AppendAllContents | ADS-Exam-Files/src/MusicLibrary.java:67-70 | each named playlist gains one copy of the song per occurrence of its name; no other playlist changes or appears |
| Catalog.Add | ADS-Exam-Files/src/MusicLibrary.java:55-72 | Done iff the key is not taken; SongAlreadyExists otherwise, and then nothing changes; otherwise exactly that key is added with the new song, other keys are kept, and keys stay consistent |
| Catalog.AddPlaylists | ADS-Exam-Files/src/MusicLibrary.java:65-71 | after a successful add, playlist `n` exists iff it existed or is named, and holds its old songs plus one copy of the song per occurrence of `n` in the caller's array |
| Catalog.Create | ADS-Exam-Files/src/MusicLibrary.java:203-207 | the playlist exists afterwards; an existing one keeps its songs, otherwise an empty one is added; songs are unchanged |
| Catalog.CreateIdempotent | ADS-Exam-Files/src/MusicLibrary.java:203-207 | creating a playlist twice equals creating it once |
| Catalog.AddToPlaylist | ADS-Exam-Files/src/MusicLibrary.java:217-226 | PlaylistNotFound first, then SongNotFound, both without change; otherwise that playlist alone gains the song at its end |
| Catalog.TitleWithoutBarNeverFound | ADS-Exam-Files/src/MusicLibrary.java:221 | a title without `|` never matches a stored key, so an existing playlist gets SongNotFound |
| Catalog.KeyCollision | ADS-Exam-Files/src/MusicLibrary.java:59 | two different songs share a key when a field holds `|`, and the second is rejected |
| Catalog.EmptyMember | ADS-Exam-Files/src/MusicLibrary.java:13-16 | an empty library satisfies `Member`: each playlist a stored song names exists and holds the song |
| Catalog.AddKeepsMember | ADS-Exam-Files/src/MusicLibrary.java:55-72 | `addSong`, successful or not, keeps `Member` |
| Catalog.CreateKeepsMember | ADS-Exam-Files/src/MusicLibrary.java:203-207 | `createPlaylist` keeps `Member` |
| Catalog.AddToPlaylistKeepsMember | ADS-Exam-Files/src/MusicLibrary.java:217-226 | `addSongToPlaylist`, whatever its outcome, keeps `Member` |
| Catalog.PlaylistNotInSongNames | ADS-Exam-Files/src/MusicLibrary.java:217-226 | the converse of `Member` fails: after `addSongToPlaylist` a playlist holds a song whose own names do not include it |
| Catalog.Load | ADS-Exam-Files/src/MusicLibrary.java:103-124 | every line is read iff every line has at least four fields; songs already stored stay; keys stay consistent and `Member` is kept |
| Catalog.LoadKeepsLists | ADS-Exam-Files/src/MusicLibrary.java:103-124 | a load keeps every earlier playlist, its old songs a prefix of its new ones, since `addSong` only creates playlists and appends to them |
| Catalog.AddKeepsLists | ADS-Exam-Files/src/MusicLibrary.java:64-71 | `addSong`, successful or not, keeps every playlist with its old songs as a prefix |
| Catalog.LoadStep | ADS-Exam-Files/src/MusicLibrary.java:106-120 | one turn of the read loop: a short line stops the load with nothing changed, otherwise the load goes on from the state after that line |
| Catalog.LoadLineStep | ADS-Exam-Files/src/MusicLibrary.java:107-119 | a line with fewer than four fields stops the load; otherwise the state is that after adding the parsed song |
| Catalog.LoadSkipsDuplicate | ADS-Exam-Files/src/MusicLibrary.java:115-119 | a duplicate line changes nothing and the load goes on with the next line |
| Catalog.LoadStopsAtShortLine | ADS-Exam-Files/src/MusicLibrary.java:109-112 | a good line followed by a two-field line: the first song stays added and the load stops |
| Catalog.FormatAll | ADS-Exam-Files/src/MusicLibrary.java:312-329 | one line per song, the i-th line formatting the i-th song |
| Catalog.LoadFormatted | ADS-Exam-Files/src/MusicLibrary.java:103-124 | loading the lines of writable songs (no `;` or line break in a field, last field not empty) with new, distinct keys reads every line and adds each song under its key |
| Catalog.WriteThenLoad | ADS-Exam-Files/src/MusicLibrary.java:303-307 | for writable songs (no field holds `;` or a line break, last field not empty), writing every stored song in any order and loading the lines into an empty library reads every line and gives back the same songs |
| Library.SortInPlace | ADS-Exam-Files/src/MusicLibrary.java:66 | the array is sorted in place: non-decreasing, same elements |
| Library.Enumerate | ADS-Exam-Files/src/MusicLibrary.java:138 | a set turned into an array holds each element once |
| Library.OrderNamed | ADS-Exam-Files/src/MusicLibrary.java:280-297 | "title", "artist" and "genre" each select their order, and only that string selects it; anything else selects none |
| Library.MusicLibrary.constructor | ADS-Exam-Files/src/MusicLibrary.java:13-16 | a new library has no songs and no playlists |
| Library.MusicLibrary.GetOrCreatePlaylist | ADS-Exam-Files/src/MusicLibrary.java:49-52 | returns the playlist filed under the name, a fresh empty one when there was none; the state changes as `Create` says |
| Library.MusicLibrary.AddSong | ADS-Exam-Files/src/MusicLibrary.java:55-72 | state and outcome as `Add` says; the caller's array is sorted only on success; earlier playlist objects stay filed under their names |
| Library.MusicLibrary.SortAndAppend | ADS-Exam-Files/src/MusicLibrary.java:65-71 | the caller's array is sorted in place, then the song is appended to the playlist of each name in sorted order; songs are unchanged |
| Library.MusicLibrary.AppendToAll | ADS-Exam-Files/src/MusicLibrary.java:67-70 | the song is appended to the playlist of each name, in array order |
| Library.MusicLibrary.AppendTo | ADS-Exam-Files/src/MusicLibrary.java:68-69 | one name: that playlist, created if absent, gains the song at its end and no other changes |
| Library.MusicLibrary.CreatePlaylist | ADS-Exam-Files/src/MusicLibrary.java:203-207 | the state changes as `Create` says; an existing playlist is kept as the same object, otherwise a fresh one is filed under the name |
| Library.MusicLibrary.AddSongToPlaylist | ADS-Exam-Files/src/MusicLibrary.java:217-226 | state and outcome as `AddToPlaylist` says |
| Library.MusicLibrary.GetPlaylist | ADS-Exam-Files/src/MusicLibrary.java:250-256 | the playlist object filed under the name, or PlaylistNotFound iff there is none |
| Library.MusicLibrary.GetPlaylistNames | ADS-Exam-Files/src/MusicLibrary.java:236-238 | every playlist name exactly once, and nothing else |
| Library.MusicLibrary.GetAllSongs | ADS-Exam-Files/src/MusicLibrary.java:87-89 | every stored song exactly once, and nothing else |
| Library.MusicLibrary.GetAllArtists | ADS-Exam-Files/src/MusicLibrary.java:133-139 | every artist of a stored song exactly once, and nothing else |
| Library.MusicLibrary.GetGenres | ADS-Exam-Files/src/MusicLibrary.java:167-173 | every genre of a stored song exactly once, and nothing else |
| Library.MusicLibrary.GetSongsByArtist | ADS-Exam-Files/src/MusicLibrary.java:150-158 | each stored song by the artist exactly once and no other song; empty when there is none |
| Library.MusicLibrary.GetSongsByGenre | ADS-Exam-Files/src/MusicLibrary.java:184-192 | each stored song of the genre exactly once and no other song; empty when there is none |
| Library.MusicLibrary.GetAllSongsSorted | ADS-Exam-Files/src/MusicLibrary.java:276-301 | for "title", "artist" and "genre": every stored song once, non-decreasing under that order; anything else: empty; the library is not modified |
| Library.MusicLibrary.LoadMusicDb | ADS-Exam-Files/src/MusicLibrary.java:103-124 | state and result as `Load` says: every line read, or stopped at the first short line with earlier songs kept; every earlier playlist object stays filed under its name and playlists the load creates are fresh |
| Library.MusicLibrary.LoadLine | ADS-Exam-Files/src/MusicLibrary.java:107-119 | one line: false iff it has fewer than four fields (then nothing changes), otherwise the state `LoadLineStep` gives |
| Library.MusicLibrary.WriteMusicDb | ADS-Exam-Files/src/MusicLibrary.java:310-333 | one line per stored song in some enumeration order; for writable songs (no `;` or line break in a field, last field not empty), loading the lines into an empty library gives back the same songs |
| Library.WriteLine | ADS-Exam-Files/src/MusicLibrary.java:313-326 | the line is `artist;title;album;genre` followed by `;name` per stored name, in stored order |

## Left out

- File I/O: `loadMusicDb` takes the file's lines as a sequence, and
  `writeMusicDb` returns the lines it would write. A missing file, which adds
  nothing, the `IOException` handling and `printStackTrace` are not modelled.
  The write-then-load results (`WriteThenLoad`, `WriteMusicDb`) assume the file
  gives back exactly the lines written. `FileWriter` and `FileReader` use the
  platform's default charset, so this holds only when that charset encodes
  every character, as UTF-8 does.
- Exceptions are results: `Outcome` for `addSong` and `addSongToPlaylist`,
  `Option` for `getPlaylist`, and `LoadResult` or the `read` flag for the
  exception that ends a load. The exception classes' messages are not modelled.
- `String.split(";")` is modelled only as splitting at `;` and dropping
  trailing empty pieces. No other regular-expression behaviour is modelled.
- Strings are Dafny `seq<char>`. `compareTo` compares UTF-16 code units, while
  Dafny compares characters; these agree for characters of the Basic
  Multilingual Plane.
- The iteration order of Java's `HashMap` and `HashSet` is not modelled. Every
  order is allowed.
- `Playlist.iterator` is not modelled separately. It yields the same songs in
  the same order as `GetSongs`.
- `Song.hashCode` and `Playlist.hashCode` are not modelled. They depend on
  `Objects.hash`, and the latter would throw when sorting non-comparable songs.
- The getters of `Song` are the fields of the `Song` datatype.
- `Songs.Song`: the model's song is a value. `getPlaylists` returns the song's
  own list, and a caller that changes that list changes the stored song; such
  changes are not modelled.
- Null field arguments are not modelled, nor the exception `switch` throws on a
  null mode.
- The complexity claims in the doc comments (O(1), O(M), O(N), load times) are
  not modelled.
- `Library.MusicLibrary.GetPlaylist`: the returned playlist is the stored
  object itself, as in the program. Changes made through it (sorting, adding)
  change the library, and the model states no more about them than the
  `Playlist` methods do.
- MusicLibraryTester.java, the console test driver, is not part of this model.
  Its expected strings appear only in the two `toString` lemmas.
