/**
 * The rows of the data store, the request bodies the handlers read and the
 * response bodies they return.
 */
module Records {
  import opened Options

  /**
   * A user account. `passwordHash` is whatever the password policy's hash
   * produced; the raw password is never stored.
   */
  datatype User = User(id: int, username: string, email: string, passwordHash: string,
                       role: string, imgUrl: Option<string>)

  /** A course. */
  datatype Playlist = Playlist(id: int, title: string)

  /** A video; `playlistId` names the course it belongs to. */
  datatype Video = Video(id: int, title: string, description: string, thumbnail: string,
                         videoUrl: string, playlistId: int)

  datatype Comment = Comment(id: int, text: Option<string>, userId: int, videoId: int)

  /** A (user, video) marker: the user liked the video. */
  datatype Like = Like(id: int, userId: int, videoId: int)

  /** A (user, video) marker: the user saved the video. */
  datatype SavedVideo = SavedVideo(id: int, userId: int, videoId: int)

  datatype Teacher = Teacher(id: int, name: string, email: string, bio: Option<string>,
                             subject: Option<string>, imgUrl: Option<string>)

  // Columns, as functions, for the generic queries of module Seqs.
  function UserId(u: User): int { u.id }
  function UserEmail(u: User): string { u.email }
  function PlaylistId(p: Playlist): int { p.id }
  function VideoId(v: Video): int { v.id }
  function VideoPlaylist(v: Video): int { v.playlistId }
  function VideoSlot(v: Video): (int, int) { (v.id, v.playlistId) }
  function CommentId(c: Comment): int { c.id }
  function CommentUser(c: Comment): int { c.userId }
  function LikeId(l: Like): int { l.id }
  function LikeUser(l: Like): int { l.userId }
  function LikePair(l: Like): (int, int) { (l.userId, l.videoId) }
  function SavedId(s: SavedVideo): int { s.id }
  function SavedUser(s: SavedVideo): int { s.userId }
  function SavedPair(s: SavedVideo): (int, int) { (s.userId, s.videoId) }
  function TeacherId(t: Teacher): int { t.id }
  function TeacherEmail(t: Teacher): string { t.email }

  /**
   * How passwords are hashed and checked. The hashing scheme lives outside
   * this model, so both are given as opaque functions.
   */
  datatype PasswordPolicy = PasswordPolicy(hash: string -> string, check: (string, string) -> bool)

  /** The check accepts a password against its own hash. */
  ghost predicate Sound(policy: PasswordPolicy)
  {
    forall pw :: policy.check(policy.hash(pw), pw)
  }

  /** JSON body of a registration. A field is None when its key is absent. */
  datatype RegisterForm = RegisterForm(username: Option<string>, email: Option<string>,
                                       password: Option<string>, confirmPassword: Option<string>,
                                       userType: Option<string>,
                                       // Sanitized file name of the uploaded profile image, if any.
                                       profile: Option<string>)

  /** JSON body of a login; the password travels under the key `pass`. */
  datatype Credentials = Credentials(email: Option<string>, pass: Option<string>)

  /** JSON body of a comment, like or save request. */
  datatype InteractionBody = InteractionBody(userId: Option<int>, videoId: Option<int>,
                                             text: Option<string>)

  /** JSON body of a teacher creation or update. */
  datatype TeacherFields = TeacherFields(name: Option<string>, email: Option<string>,
                                         bio: Option<string>, subject: Option<string>)

  /** A response body: every handler returns one of these together with a status code. */
  datatype Body =
    | Error(error: string)
    | Message(message: string)
    | Registered(message: string, role: string)
    | LoggedIn(message: string, userId: int, username: string, imgUrl: Option<string>, role: string)
    | UserStats(username: string, role: string, imgUrl: Option<string>,
                commentsCount: nat, likesCount: nat, savedVideosCount: nat)
    | ProfileView(username: string, email: string, role: string)
    | PlaylistList(playlists: seq<Playlist>)
    | VideoList(videos: seq<Video>)
    | SearchResults(users: seq<User>, videos: seq<Video>, playlists: seq<Playlist>)
    | VideoView(playlist: Playlist, video: Video)
    | TeacherList(teachers: seq<Teacher>)
    | TeacherView(teacher: Teacher)

  /** A string field is truthy when present and non-empty. */
  predicate Filled(o: Option<string>)
  {
    o.Some? && o.value != ""
  }

  /** A JSON integer is truthy when present and not 0. */
  predicate Truthy(o: Option<int>)
  {
    o.Some? && o.value != 0
  }

  /** The role whitelist of registration. */
  predicate KnownRole(role: string)
  {
    role == "student" || role == "teacher"
  }

  /** The requested role: `user_type`, or `student` when the key is absent. */
  function RequestedRole(form: RegisterForm): string
  {
    if form.userType.Some? then form.userType.value else "student"
  }

  /** `os.path.join(dir, name)` for a relative `name`. */
  function JoinPath(dir: string, name: string): (path: string)
    ensures |path| >= |dir| + |name|
    ensures path[..|dir|] == dir
    ensures path[|path| - |name|..] == name
    ensures |path| <= |dir| + |name| + 1
  {
    if |dir| == 0 || dir[|dir| - 1] == '/' then dir + name else dir + "/" + name
  }

  /** The image reference stored for a registration: `/static/uploads/<username>_<file>`. */
  function ProfilePath(username: string, file: Option<string>): (r: Option<string>)
    ensures r.Some? <==> file.Some?
    ensures r.Some? ==> |r.value| > 16 + |username| && r.value[..16] == "/static/uploads/"
    ensures r.Some? ==> r.value[16..16 + |username|] == username
    ensures r.Some? ==> r.value[16 + |username|..] == "_" + file.value
  {
    if file.Some? then Some("/static/uploads/" + username + "_" + file.value) else None
  }
}
