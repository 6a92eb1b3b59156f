/**
 * `build_artist_top_tracks_dict` of main.py: a dictionary from each
 * artist's name to a dictionary from each of that artist's track names to
 * the number of invoice lines of the track.  Both levels are plain
 * dictionary assignments, so a later artist, or a later track, with an
 * equal name overwrites the earlier entry.
 */
module TopTracks {
  import opened Rows

  /** No pair after the `i`th writes the same key. */
  predicate LastFor<K(==), V>(pairs: seq<(K, V)>, i: nat)
    requires i < |pairs|
  {
    forall j :: i < j < |pairs| ==> pairs[j].0 != pairs[i].0
  }

  /**
   * The dictionary left by the assignments `d[k] = v`, for the pairs in
   * order, starting from `{}` (characterised by `AssignKeys` and
   * `AssignLast`).
   */
  function Assign<K(!new), V>(pairs: seq<(K, V)>): (m: map<K, V>)
    ensures pairs == [] ==> m == map[]
  {
    if pairs == [] then map[]
    else
      var n := |pairs| - 1;
      Assign(pairs[..n])[pairs[n].0 := pairs[n].1]
  }

  /** The keys of `Assign(pairs)` are exactly the keys written. */
  lemma {:induction false} AssignKeys<K(!new), V>(pairs: seq<(K, V)>, k: K)
    ensures k in Assign(pairs) <==> exists i :: 0 <= i < |pairs| && pairs[i].0 == k
  {
    if pairs != [] {
      var n := |pairs| - 1;
      AssignKeys(pairs[..n], k);
      if k in Assign(pairs[..n]) {
        var i :| 0 <= i < n && pairs[..n][i].0 == k;
        assert pairs[i].0 == k;
      }
      if exists i :: 0 <= i < |pairs| && pairs[i].0 == k {
        var i :| 0 <= i < |pairs| && pairs[i].0 == k;
        if i < n {
          assert pairs[..n][i].0 == k;
        }
      }
    }
  }

  /** A key is bound to the value of its last write. */
  lemma {:induction false} AssignLast<K(!new), V>(pairs: seq<(K, V)>, i: nat)
    requires i < |pairs| && LastFor(pairs, i)
    ensures pairs[i].0 in Assign(pairs) && Assign(pairs)[pairs[i].0] == pairs[i].1
  {
    var n := |pairs| - 1;
    if i < n {
      assert pairs[n].0 != pairs[i].0;
      assert pairs[..n][i] == pairs[i];
      assert LastFor(pairs[..n], i) by {
        forall j | i < j < n
          ensures pairs[..n][j].0 != pairs[..n][i].0
        {
          assert pairs[..n][j] == pairs[j];
        }
      }
      AssignLast(pairs[..n], i);
    }
  }

  /** One more assignment after `pairs`. */
  lemma AssignSnoc<K(!new), V>(pairs: seq<(K, V)>, pair: (K, V))
    ensures Assign(pairs + [pair]) == Assign(pairs)[pair.0 := pair.1]
  {
    assert (pairs + [pair])[..|pairs|] == pairs;
  }

  /** One more assignment on top of the first `i`. */
  lemma AssignNext<K(!new), V>(pairs: seq<(K, V)>, i: nat)
    requires i < |pairs|
    ensures Assign(pairs[..i + 1]) == Assign(pairs[..i])[pairs[i].0 := pairs[i].1]
  {
    assert pairs[..i + 1][..i] == pairs[..i];
  }

  /** The tracks of the albums, album by album, each album's in its order. */
  function AlbumTracks(albums: seq<Album>): seq<Track>
  {
    if albums == [] then [] else AlbumTracks(albums[..|albums| - 1]) + albums[|albums| - 1].tracks
  }

  /** A track is among `AlbumTracks(albums)` exactly when it is a track of one of the albums. */
  lemma {:induction false} AlbumTracksMembers(albums: seq<Album>)
    ensures forall x :: x in AlbumTracks(albums) <==> exists j :: 0 <= j < |albums| && x in albums[j].tracks
  {
    if albums != [] {
      var n := |albums| - 1;
      AlbumTracksMembers(albums[..n]);
      assert forall j :: 0 <= j < n ==> albums[..n][j] == albums[j];
    }
  }

  lemma AlbumTracksNext(albums: seq<Album>, j: nat)
    requires j < |albums|
    ensures AlbumTracks(albums[..j + 1]) == AlbumTracks(albums[..j]) + albums[j].tracks
  {
    assert albums[..j + 1][..j] == albums[..j];
  }

  /** `track.Name` and `len(track.invoiceline_collection)`, for each track. */
  function TrackPairs(tracks: seq<Track>): (pairs: seq<(Name, int)>)
    ensures |pairs| == |tracks|
  {
    seq(|tracks|, k requires 0 <= k < |tracks| => (tracks[k].name, |tracks[k].invoiceLines|))
  }

  /** One more track written into the inner dictionary. */
  lemma TrackStep(done: seq<Track>, track: Track)
    ensures Assign(TrackPairs(done + [track])) == Assign(TrackPairs(done))[track.name := |track.invoiceLines|]
  {
    var pair := (track.name, |track.invoiceLines|);
    assert TrackPairs(done + [track]) == TrackPairs(done) + [pair];
    AssignSnoc(TrackPairs(done), pair);
  }

  /** The tracks visited so far grow by the album's next track. */
  lemma DoneStep(done: seq<Track>, prefix: seq<Track>, tracks: seq<Track>, t: nat)
    requires t < |tracks| && done == prefix + tracks[..t]
    ensures done + [tracks[t]] == prefix + tracks[..t + 1]
  {
    assert tracks[..t + 1] == tracks[..t] + [tracks[t]];
  }

  /** Writing the next track into the entry of `key` of the outer dictionary. */
  lemma WriteTrack(result: map<Name, map<Name, int>>, before: map<Name, map<Name, int>>,
                   key: Name, done: seq<Track>, track: Track)
    requires result == before[key := Assign(TrackPairs(done))]
    ensures key in result
    ensures var written: map<Name, int> := result[key][track.name := |track.invoiceLines|];
      result[key := written] == before[key := Assign(TrackPairs(done + [track]))]
  {
    TrackStep(done, track);
  }

  /** The inner dictionary an artist ends with. */
  function TrackCounts(artist: Artist): map<Name, int>
  {
    Assign(TrackPairs(AlbumTracks(artist.albums)))
  }

  /** `artist.Name` and the inner dictionary, for each artist. */
  function ArtistPairs(artists: seq<Artist>): (pairs: seq<(Name, map<Name, int>)>)
    ensures |pairs| == |artists|
  {
    seq(|artists|, k requires 0 <= k < |artists| => (artists[k].name, TrackCounts(artists[k])))
  }

  /** No artist after the `k`th has the same name. */
  predicate LastArtist(artists: seq<Artist>, k: nat)
    requires k < |artists|
  {
    forall j :: k < j < |artists| ==> artists[j].name != artists[k].name
  }

  /**
   * One pass of the outer loop of `build_artist_top_tracks_dict`: the entry
   * of the artist's name is reset to `{}`, then every track of every album,
   * in order, writes its invoice-line count under its name.  The entry ends
   * as the artist's `TrackCounts`; no other entry changes.
   */
  method FillArtist(start: map<Name, map<Name, int>>, artist: Artist) returns (result: map<Name, map<Name, int>>)
    ensures result == start[artist.name := TrackCounts(artist)]
  {
    result := start[artist.name := map[]];
    ghost var done: seq<Track> := [];
    var j := 0;
    while j < |artist.albums|
      invariant 0 <= j <= |artist.albums|
      invariant done == AlbumTracks(artist.albums[..j])
      invariant result == start[artist.name := Assign(TrackPairs(done))]
    {
      var album := artist.albums[j];
      var t := 0;
      while t < |album.tracks|
        invariant 0 <= t <= |album.tracks|
        invariant done == AlbumTracks(artist.albums[..j]) + album.tracks[..t]
        invariant result == start[artist.name := Assign(TrackPairs(done))]
      {
        var track := album.tracks[t];
        DoneStep(done, AlbumTracks(artist.albums[..j]), album.tracks, t);
        WriteTrack(result, start, artist.name, done, track);
        var written: map<Name, int> := result[artist.name][track.name := |track.invoiceLines|];
        result := result[artist.name := written];
        done := done + [track];
        t := t + 1;
      }
      AlbumTracksNext(artist.albums, j);
      assert album.tracks[..t] == album.tracks;
      j := j + 1;
    }
    assert artist.albums[..j] == artist.albums;
  }

  /**
   * `build_artist_top_tracks_dict`: the dictionary that the assignments
   * `result[artist.Name] = <the artist's track counts>`, artist by artist,
   * leave behind; `ArtistTopTracksMeaning` says what that dictionary holds.
   */
  method BuildArtistTopTracks(artists: seq<Artist>) returns (result: map<Name, map<Name, int>>)
    ensures result == Assign(ArtistPairs(artists))
  {
    ghost var pairs := ArtistPairs(artists);
    result := map[];
    var i := 0;
    while i < |artists|
      invariant 0 <= i <= |artists|
      invariant result == Assign(pairs[..i])
    {
      result := FillArtist(result, artists[i]);
      AssignNext(pairs, i);
      i := i + 1;
    }
    assert pairs[..i] == pairs;
  }

  /**
   * The inner dictionary of an artist: its keys are the names of the
   * artist's tracks, album by album (`AlbumTracks`), and a name is bound to
   * the number of invoice lines of the last track of that name; an artist
   * with no albums gets `{}`.
   */
  lemma TrackCountsMeaning(artist: Artist)
    ensures forall n :: n in TrackCounts(artist) <==>
      exists i :: 0 <= i < |AlbumTracks(artist.albums)| && AlbumTracks(artist.albums)[i].name == n
    ensures forall i ::
      (&& 0 <= i < |AlbumTracks(artist.albums)|
       && forall j :: i < j < |AlbumTracks(artist.albums)| ==> AlbumTracks(artist.albums)[j].name != AlbumTracks(artist.albums)[i].name)
      ==>
      (&& AlbumTracks(artist.albums)[i].name in TrackCounts(artist)
       && TrackCounts(artist)[AlbumTracks(artist.albums)[i].name] == |AlbumTracks(artist.albums)[i].invoiceLines|)
    ensures artist.albums == [] ==> TrackCounts(artist) == map[]
  {
    var tracks := AlbumTracks(artist.albums);
    var pairs := TrackPairs(tracks);
    forall n
      ensures n in TrackCounts(artist) <==> exists i :: 0 <= i < |tracks| && tracks[i].name == n
    {
      TrackKey(tracks, n);
    }
    forall i | 0 <= i < |tracks| && (forall j :: i < j < |tracks| ==> tracks[j].name != tracks[i].name)
      ensures tracks[i].name in TrackCounts(artist) && TrackCounts(artist)[tracks[i].name] == |tracks[i].invoiceLines|
    {
      assert LastFor(pairs, i);
      AssignLast(pairs, i);
    }
  }

  lemma TrackKey(tracks: seq<Track>, n: Name)
    ensures n in Assign(TrackPairs(tracks)) <==> exists i :: 0 <= i < |tracks| && tracks[i].name == n
  {
    var pairs := TrackPairs(tracks);
    AssignKeys(pairs, n);
    if n in Assign(pairs) {
      var i :| 0 <= i < |pairs| && pairs[i].0 == n;
      assert tracks[i].name == n;
    }
    if exists i :: 0 <= i < |tracks| && tracks[i].name == n {
      var i :| 0 <= i < |tracks| && tracks[i].name == n;
      assert pairs[i].0 == n;
    }
  }

  /**
   * The outer dictionary: its keys are the artists' names, and a name is
   * bound to the inner dictionary of the last artist of that name, which
   * replaces the entries of earlier artists of that name entirely.
   */
  lemma ArtistTopTracksMeaning(artists: seq<Artist>)
    ensures var result := Assign(ArtistPairs(artists));
      && (forall n :: n in result <==> exists k :: 0 <= k < |artists| && artists[k].name == n)
      && (forall k :: 0 <= k < |artists| && LastArtist(artists, k) ==>
            artists[k].name in result && result[artists[k].name] == TrackCounts(artists[k]))
  {
    var pairs := ArtistPairs(artists);
    forall n
      ensures n in Assign(pairs) <==> exists k :: 0 <= k < |artists| && artists[k].name == n
    {
      AssignKeys(pairs, n);
      if n in Assign(pairs) {
        var k :| 0 <= k < |pairs| && pairs[k].0 == n;
        assert artists[k].name == n;
      }
      if exists k :: 0 <= k < |artists| && artists[k].name == n {
        var k :| 0 <= k < |artists| && artists[k].name == n;
        assert pairs[k].0 == n;
      }
    }
    forall k | 0 <= k < |artists| && LastArtist(artists, k)
      ensures artists[k].name in Assign(pairs) && Assign(pairs)[artists[k].name] == TrackCounts(artists[k])
    {
      assert LastFor(pairs, k);
      AssignLast(pairs, k);
    }
  }
}
