/**
 * The one-line-per-song text format of loadMusicDb and writeMusicDb:
 * `artist;title;album;genre` followed by `;name` for each stored playlist
 * name. There is no escaping: a `;` inside a field is read back as a
 * separator.
 */
module LineCodec {
  import opened Songs

  /** Position of the first `;` in `s`, or `|s|` when there is none. */
  function SemicolonIndex(s: string): (i: nat)
    ensures i <= |s|
    ensures i < |s| ==> s[i] == ';'
    ensures forall j :: 0 <= j < i ==> s[j] != ';'
  {
    if s == [] || s[0] == ';' then 0 else 1 + SemicolonIndex(s[1..])
  }

  /** The pieces with a `;` between each two: what Pieces undoes. */
  function JoinWith(ps: seq<string>): string
    requires |ps| >= 1
  {
    if |ps| == 1 then ps[0] else ps[0] + ";" + JoinWith(ps[1..])
  }

  /** The pieces of `s` between `;` separators, empty pieces included. */
  function Pieces(s: string): (r: seq<string>)
    ensures |r| >= 1 && JoinWith(r) == s
    ensures forall p :: p in r ==> ';' !in p
    decreases |s|
  {
    var i := SemicolonIndex(s);
    if i == |s| then [s]
    else
      var first, rest := s[..i], Pieces(s[i + 1..]);
      assert s == first + ";" + s[i + 1..];
      assert ([first] + rest)[1..] == rest;
      assert ';' !in first by {
        forall j | 0 <= j < |first| ensures first[j] != ';' { assert first[j] == s[j]; }
      }
      [first] + rest
  }

  function DropTrailingEmpty(xs: seq<string>): (r: seq<string>)
    ensures |r| <= |xs| && r == xs[..|r|]
    ensures r == [] || r[|r| - 1] != ""
    ensures forall i :: |r| <= i < |xs| ==> xs[i] == ""
  {
    if xs != [] && xs[|xs| - 1] == "" then
      var r := DropTrailingEmpty(xs[..|xs| - 1]);
      assert xs[..|xs| - 1][..|r|] == xs[..|r|];
      r
    else xs
  }

  /**
   * `line.split(";")`: a line without a `;` is returned whole (even when it is
   * empty); otherwise its pieces, with the trailing empty pieces removed.
   */
  function Split(line: string): (r: seq<string>)
    ensures forall p :: p in r ==> ';' !in p
    ensures ';' !in line ==> r == [line]
    ensures ';' in line ==>
      var ps := Pieces(line);
      |r| <= |ps| && r == ps[..|r|] && (r == [] || r[|r| - 1] != "") &&
      forall i :: |r| <= i < |ps| ==> ps[i] == ""
  {
    if ';' !in line then [line]
    else
      var ps := Pieces(line);
      var r := DropTrailingEmpty(ps);
      assert forall p :: p in r ==> p in ps;
      r
  }

  /** The `;name` that writeMusicDb appends for each stored playlist name, in stored order. */
  function NamesSuffix(names: seq<string>): string {
    if names == [] then "" else ";" + names[0] + NamesSuffix(names[1..])
  }

  lemma {:induction false} NamesSuffixSnoc(names: seq<string>, n: string)
    ensures NamesSuffix(names + [n]) == NamesSuffix(names) + ";" + n
  {
    if names != [] {
      assert (names + [n])[1..] == names[1..] + [n];
      NamesSuffixSnoc(names[1..], n);
    } else {
      assert NamesSuffix([n]) == ";" + n + NamesSuffix([]);
    }
  }

  /** `x` followed by `;name` per name is `x` and the names joined with `;`. */
  lemma {:induction false} JoinSuffix(x: string, names: seq<string>)
    ensures x + NamesSuffix(names) == JoinWith([x] + names)
    decreases |names|
  {
    if names == [] {
      assert x + NamesSuffix(names) == x;
    } else {
      JoinSuffix(names[0], names[1..]);
      assert [names[0]] + names[1..] == names;
      assert ([x] + names)[1..] == names;
    }
  }

  /** The line writeMusicDb writes for one song: its fields joined with `;`. */
  function FormatLine(s: Song): (r: string)
    ensures r == JoinWith(Fields(s))
  {
    FieldsJoined(s);
    s.artist + ";" + s.title + ";" + s.album + ";" + s.genre + NamesSuffix(s.playlists)
  }

  lemma FieldsJoined(s: Song)
    ensures s.artist + ";" + s.title + ";" + s.album + ";" + s.genre + NamesSuffix(s.playlists) == JoinWith(Fields(s))
  {
    var g := [s.genre] + s.playlists;
    var a := [s.album] + g;
    var t := [s.title] + a;
    JoinSuffix(s.genre, s.playlists);
    assert a[1..] == g && t[1..] == a && Fields(s) == [s.artist] + t && Fields(s)[1..] == t;
    assert JoinWith(a) == s.album + ";" + JoinWith(g);
    assert JoinWith(t) == s.title + ";" + JoinWith(a);
    assert JoinWith(Fields(s)) == s.artist + ";" + JoinWith(t);
  }

  /**
   * The song loadMusicDb builds from one line: the first four fields and the
   * rest as playlist names in line order. `None` when the line has fewer than
   * four fields, where the program's `parts[1..3]` access throws.
   */
  function ParseLine(line: string): (r: Option<Song>)
    ensures r.None? <==> |Split(line)| < 4
    ensures r.Some? ==> [r.value.artist, r.value.title, r.value.album, r.value.genre] + r.value.playlists == Split(line)
  {
    var parts := Split(line);
    if |parts| < 4 then None
    else
      assert parts == parts[..4] + parts[4..];
      Some(NewSong(parts[0], parts[1], parts[2], parts[3], Some(parts[4..])))
  }

  /** The fields of a song in the order a line holds them. */
  function Fields(s: Song): seq<string> {
    [s.artist, s.title, s.album, s.genre] + s.playlists
  }

  /**
   * A song the format can carry: no field contains `;` or a line break (the
   * reader takes the file line by line), and the last field is not empty
   * (split would drop it).
   */
  predicate Writable(s: Song) {
    (forall f :: f in Fields(s) ==> ';' !in f && '\n' !in f && '\r' !in f) &&
    Fields(s)[|Fields(s)| - 1] != ""
  }

  lemma {:induction false} SemicolonIndexAfter(x: string, y: string)
    requires ';' !in x
    ensures SemicolonIndex(x + ";" + y) == |x|
  {
    if x != [] {
      assert (x + ";" + y)[1..] == x[1..] + ";" + y;
      SemicolonIndexAfter(x[1..], y);
    }
  }

  lemma PiecesSingle(x: string)
    requires ';' !in x
    ensures Pieces(x) == [x]
  {
  }

  lemma PiecesCons(x: string, rest: string)
    requires ';' !in x
    ensures Pieces(x + ";" + rest) == [x] + Pieces(rest)
  {
    SemicolonIndexAfter(x, rest);
    assert (x + ";" + rest)[..|x|] == x;
    assert (x + ";" + rest)[|x| + 1..] == rest;
  }

  /** Pieces undoes JoinWith when no piece holds a `;`. */
  lemma {:induction false} PiecesOfJoin(ps: seq<string>)
    requires |ps| >= 1 && forall p :: p in ps ==> ';' !in p
    ensures Pieces(JoinWith(ps)) == ps
  {
    if |ps| == 1 {
      PiecesSingle(ps[0]);
    } else {
      PiecesOfJoin(ps[1..]);
      PiecesCons(ps[0], JoinWith(ps[1..]));
      assert ps == [ps[0]] + ps[1..];
    }
  }

  /** A written line splits into the song's fields when no field holds `;`. */
  lemma PiecesOfFormat(s: Song)
    requires forall f :: f in Fields(s) ==> ';' !in f
    ensures Pieces(FormatLine(s)) == Fields(s)
    ensures ';' in FormatLine(s)
  {
    var f := Fields(s);
    PiecesOfJoin(f);
    assert JoinWith(f) == s.artist + ";" + JoinWith(f[1..]);
    assert FormatLine(s)[|s.artist|] == ';';
  }

  /** Reading back a written line gives the same song: the written file can be loaded again. */
  lemma ParseFormat(s: Song)
    requires Writable(s)
    ensures ParseLine(FormatLine(s)) == Some(s)
  {
    var f := Fields(s);
    PiecesOfFormat(s);
    assert Split(FormatLine(s)) == f;
    assert f[..4] == [s.artist, s.title, s.album, s.genre] && f[4..] == s.playlists;
  }

  /**
   * The converse: a song whose last field is empty is never read back as
   * itself, since split drops the empty field (an empty genre with no
   * playlists even makes the line too short to load).
   */
  lemma EmptyLastFieldIsLost(s: Song)
    requires forall f :: f in Fields(s) ==> ';' !in f
    requires Fields(s)[|Fields(s)| - 1] == ""
    ensures ParseLine(FormatLine(s)) != Some(s)
    ensures s.playlists == [] ==> ParseLine(FormatLine(s)) == None
  {
    PiecesOfFormat(s);
    assert |Split(FormatLine(s))| < |Fields(s)|;
  }
}
