/**
 * What the search handler selects from each table. A row is selected when
 * the columns named below match `%q%` under `ILIKE`: for users ANY of
 * username, email and id (an OR), for playlists the title, for videos ALL
 * of title, description and URL (an AND).
 */
module SearchFilters {
  import opened Records
  import opened Text
  import opened Seqs

  predicate UserMatches(q: string, u: User)
  {
    ILike(u.username, Pattern(q)) || ILike(u.email, Pattern(q)) || ILike(IntText(u.id), Pattern(q))
  }

  predicate PlaylistMatches(q: string, p: Playlist)
  {
    ILike(p.title, Pattern(q))
  }

  predicate VideoMatches(q: string, v: Video)
  {
    ILike(v.title, Pattern(q)) && ILike(v.description, Pattern(q)) && ILike(v.videoUrl, Pattern(q))
  }

  function MatchingUsers(users: seq<User>, q: string): (r: seq<User>)
    ensures |r| <= |users|
    ensures forall u :: u in r <==> u in users && UserMatches(q, u)
  {
    FilterMembers(users, u => UserMatches(q, u));
    Filter(users, u => UserMatches(q, u))
  }

  function MatchingPlaylists(playlists: seq<Playlist>, q: string): (r: seq<Playlist>)
    ensures |r| <= |playlists|
    ensures forall p :: p in r <==> p in playlists && PlaylistMatches(q, p)
  {
    FilterMembers(playlists, p => PlaylistMatches(q, p));
    Filter(playlists, p => PlaylistMatches(q, p))
  }

  function MatchingVideos(videos: seq<Video>, q: string): (r: seq<Video>)
    ensures |r| <= |videos|
    ensures forall v :: v in r <==> v in videos && VideoMatches(q, v)
  {
    FilterMembers(videos, v => VideoMatches(q, v));
    Filter(videos, v => VideoMatches(q, v))
  }

  /** Results come in storage order: searching a concatenation concatenates the results. */
  lemma MatchingUsersAppend(a: seq<User>, b: seq<User>, q: string)
    ensures MatchingUsers(a + b, q) == MatchingUsers(a, q) + MatchingUsers(b, q)
  {
    FilterAppend(a, b, u => UserMatches(q, u));
  }

  /**
   * For a query without `%` or `_`, a user is found exactly when its username
   * OR its email OR its id's decimal text contains the query, ignoring case.
   */
  lemma UserMatchIsSubstring(q: string, u: User)
    requires NoWildcards(q)
    ensures UserMatches(q, u) <==>
              Contains(Lower(u.username), Lower(q)) || Contains(Lower(u.email), Lower(q))
              || Contains(Lower(IntText(u.id)), Lower(q))
  {
    ILikeIsSubstring(q, u.username);
    ILikeIsSubstring(q, u.email);
    ILikeIsSubstring(q, IntText(u.id));
  }

  /** For a query without `%` or `_`, a playlist is found exactly when its title contains the query. */
  lemma PlaylistMatchIsSubstring(q: string, p: Playlist)
    requires NoWildcards(q)
    ensures PlaylistMatches(q, p) <==> Contains(Lower(p.title), Lower(q))
  {
    ILikeIsSubstring(q, p.title);
  }

  /**
   * For a query without `%` or `_`, a video is found exactly when its title
   * AND its description AND its URL each contain the query, ignoring case.
   */
  lemma VideoMatchIsSubstring(q: string, v: Video)
    requires NoWildcards(q)
    ensures VideoMatches(q, v) <==>
              Contains(Lower(v.title), Lower(q)) && Contains(Lower(v.description), Lower(q))
              && Contains(Lower(v.videoUrl), Lower(q))
  {
    ILikeIsSubstring(q, v.title);
    ILikeIsSubstring(q, v.description);
    ILikeIsSubstring(q, v.videoUrl);
  }
}

module SearchExamples {
  import opened Records
  import opened Text
  import opened SearchFilters

  /** A text missing some character of `q` does not contain `q`. */
  lemma MissingCharNotContained(t: string, q: string, i: nat)
    requires i < |q| && q[i] !in t
    ensures !Contains(t, q)
  {
    forall k | 0 <= k <= |t| ensures !IsPrefix(q, t[k..]) {
      if k + i < |t| {
        assert t[k..][i] == t[k + i];
        assert t[k + i] in t;
      }
    }
  }

  /** A text without upper-case letters is its own lower-casing. */
  lemma LowerOfLowercase(s: string)
    requires forall i :: 0 <= i < |s| ==> !('A' <= s[i] <= 'Z')
    ensures Lower(s) == s
  {
  }

  lemma AnaMatchesAna(u: User)
    requires u.username == "ana"
    ensures UserMatches("ana", u)
  {
    LowerOfLowercase("ana");
    ILikeIsSubstring("ana", u.username);
    assert IsPrefix("ana", "ana"[0..]);
  }

  /** `zz` is not found in a lower-case text without the letter `z`. */
  lemma ZzNotIn(t: string)
    requires forall i :: 0 <= i < |t| ==> !('A' <= t[i] <= 'Z')
    requires 'z' !in t
    ensures !ILike(t, Pattern("zz"))
  {
    LowerOfLowercase("zz");
    LowerOfLowercase(t);
    ILikeIsSubstring("zz", t);
    MissingCharNotContained(t, "zz", 0);
  }

  lemma ZzMissesAna(u: User)
    requires u.username == "ana" && u.email == "ana@x.com" && u.id == 1
    ensures !UserMatches("zz", u)
  {
    ZzNotIn(u.username);
    ZzNotIn(u.email);
    assert IntText(u.id) == "1";
    ZzNotIn(IntText(u.id));
  }

  /** With one user `ana`, the query `ana` finds it and the query `zz` finds nothing. */
  lemma AnaExample(u: User)
    requires u.id == 1 && u.username == "ana" && u.email == "ana@x.com"
    ensures MatchingUsers([u], "ana") == [u]
    ensures MatchingUsers([u], "zz") == []
  {
    AnaMatchesAna(u);
    ZzMissesAna(u);
    assert [u][1..] == [];
  }
}
